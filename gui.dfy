/**
 * The scan side of the single-window front end, lus4n/gui.py: its own
 * background ScanThread (an older copy of the scan driver, which decides on a
 * file from its first 100 bytes and links every scanned file the way
 * `scan_path` does), and the parts of the main window Lus4nGUI that start a
 * scan, follow its status messages and keep the recent-query list.
 */
module Gui {
  import opened Wrappers
  import opened Seqs
  import opened Text
  import opened PyDict
  import opened Network
  import opened Ingest
  import opened Visitor
  import opened Linker
  import opened Lus4nGraph
  import opened ScanStatus
  import opened Recent

  // ---------------------------------------------------------------------------
  // Selection from the first bytes of a file

  /** How many bytes the walk reads from each file to decide on it. */
  const HEAD_SIZE: nat := 100

  /** `f.read(100)`: the first hundred bytes, or the whole file when it is shorter. */
  function Head(bytes: seq<Byte>): (head: seq<Byte>)
    ensures |head| <= HEAD_SIZE && |head| <= |bytes| && head == bytes[..|head|]
    ensures |bytes| <= HEAD_SIZE ==> head == bytes
    ensures |head| == if |bytes| <= HEAD_SIZE then |bytes| else HEAD_SIZE
  {
    if |bytes| <= HEAD_SIZE then bytes else bytes[..HEAD_SIZE]
  }

  /**
   * The walk's test on a file it could open: the full path has a listed
   * extension and the first bytes are not a precompiled chunk, or the first
   * bytes are the Lua shebang line.
   */
  predicate HeadSelected(path: string, read: ReadResult, extensions: seq<string>) {
    && read.Content?
    && var head := Head(read.bytes);
       || (HasExtension(path, extensions) && !StartsWith(head, BYTECODE_SIGNATURE))
       || StartsWith(head, SHEBANG)
  }

  /** A prefix no longer than the window starts the window exactly when it starts the file. */
  lemma HeadStartsWith(bytes: seq<Byte>, prefix: seq<Byte>)
    requires |prefix| <= HEAD_SIZE
    ensures StartsWith(Head(bytes), prefix) <==> StartsWith(bytes, prefix)
  {
    var head := Head(bytes);
    if |prefix| <= |head| {
      assert head[..|prefix|] == bytes[..|prefix|];
    }
  }

  /**
   * Both signatures fit in the first hundred bytes, so the window decides as
   * `scan_path`'s test on the whole content does.
   */
  lemma HeadDecidesAsWhole(path: string, read: ReadResult, extensions: seq<string>)
    ensures HeadSelected(path, read, extensions) <==> Selected(path, read, extensions)
  {
    if read.Content? {
      HeadStartsWith(read.bytes, BYTECODE_SIGNATURE);
      HeadStartsWith(read.bytes, SHEBANG);
    }
  }

  // ---------------------------------------------------------------------------
  // The scan thread

  /**
   * What the two phases of a run give: None when the flag is seen at one of
   * the polls (one per walked file, then one per kept file), otherwise the
   * whole call graph and the network of the kept files.
   */
  function GuiPhasesResult(root: string, stoppedBefore: bool, files: seq<WalkedFile>, exts: seq<string>,
                           env: Env, stopAt: Option<nat>): Option<(Dict<string, CallGraph>, Graph)>
  {
    var willScan := WillScan(files, exts);
    if StopDuring(stoppedBefore, stopAt, 0, |files| + |willScan|) then None
    else Some(Scanned(root, env, willScan))
  }

  /**
   * Unless it is stopped, the thread computes what `scan_path` computes for
   * the same tree, with `.lua` standing in for an empty extension list.
   */
  lemma GuiScanIsScanPath(root: string, files: seq<WalkedFile>, exts: seq<string>, env: Env)
    ensures GuiPhasesResult(root, false, files, EffectiveExtensions(exts), env, None)
            == Some(ScanPathResult(root, env, files, if exts == [] then None else Some(exts)))
  {
  }

  class ScanThread {
    const path: string
    const storage: string
    var extensions: seq<string>
    var stopped: bool
    /** The last message sent to the status bar. */
    var status: string
    /** What `scan_finished` carried, if it was sent. */
    var finished: Option<(Dict<string, CallGraph>, Graph)>
    /** What `scan_error` carried, if it was sent. */
    var failure: Option<string>
    /** What the storage file holds: only the network is dumped. */
    var stored: Option<Graph>

    constructor (path: string, storage: string, extensions: seq<string>)
      ensures this.path == path && this.storage == storage && this.extensions == extensions
      ensures !stopped && status == "" && finished.None? && failure.None? && stored.None?
    {
      this.path := path;
      this.storage := storage;
      this.extensions := extensions;
      stopped := false;
      status := "";
      finished := None;
      failure := None;
      stored := None;
    }

    /** `stop`: sets the flag the running scan polls. */
    method Stop()
      modifies this`stopped
      ensures stopped
    {
      stopped := true;
    }

    /** One poll of the flag, numbered `k`; a `stop` landing before it is applied first. */
    method Poll(k: nat, stopAt: Option<nat>) returns (stop: bool)
      modifies this`stopped
      ensures stopped == (old(stopped) || (stopAt.Some? && stopAt.value <= k))
      ensures stop == stopped
    {
      if stopAt.Some? && stopAt.value <= k {
        Stop();
      }
      stop := stopped;
    }

    /**
     * The walk phase: poll the flag before each file, read its first hundred
     * bytes and keep it when the window selects it; a file that cannot be
     * read is only logged.
     */
    method CollectFiles(files: seq<WalkedFile>, exts: seq<string>, stopAt: Option<nat>)
      returns (completed: bool, willScan: seq<WalkedFile>)
      modifies this`stopped
      ensures completed <==> !StopDuring(old(stopped), stopAt, 0, |files|)
      ensures stopped == (old(stopped) || (|files| > 0 && stopAt.Some? && stopAt.value < |files|))
      ensures completed ==> willScan == WillScan(files, exts)
    {
      willScan := [];
      var i := 0;
      while i < |files|
        invariant 0 <= i <= |files|
        invariant stopped == old(stopped) && !StopDuring(old(stopped), stopAt, 0, i)
        invariant willScan == WillScan(files[..i], exts)
      {
        var stop := Poll(i, stopAt);
        if stop {
          return false, willScan;
        }
        willScan := WalkOne(files, exts, i, willScan);
        i := i + 1;
      }
      assert files[..i] == files;
      completed := true;
    }

    /** One file of the walk: appended to the scan list when its first bytes select it. */
    static method WalkOne(files: seq<WalkedFile>, exts: seq<string>, i: nat, willScan: seq<WalkedFile>)
      returns (willScan': seq<WalkedFile>)
      requires i < |files| && willScan == WillScan(files[..i], exts)
      ensures willScan' == WillScan(files[..i + 1], exts)
    {
      var f := files[i];
      WillScanSnoc(files, exts, i);
      var keep := ReadsAsSelected(f, exts);
      willScan' := willScan;
      if keep {
        willScan' := willScan + [f];
      }
    }

    /**
     * The body of the walk loop for one file: open it, read its first hundred
     * bytes and test them; a file that cannot be read is only logged.
     */
    static method ReadsAsSelected(f: WalkedFile, exts: seq<string>) returns (keep: bool)
      ensures keep == Selected(FilePath(f), f.read, exts)
    {
      HeadDecidesAsWhole(FilePath(f), f.read, exts);
      keep := false;
      match f.read {
        case Content(bytes) =>
          var head := Head(bytes);
          var hasValidExtension := HasExtension(FilePath(f), exts);
          if hasValidExtension && !StartsWith(head, BYTECODE_SIGNATURE) {
            keep := true;
          } else if StartsWith(head, SHEBANG) {
            keep := true;
          }
        case _ =>
      }
    }

    /**
     * The scanning phase: poll the flag before each kept file (polls are
     * numbered from `base`), scan it, key it by its path under the root and
     * link it into the network.
     */
    method ScanFiles(env: Env, willScan: seq<WalkedFile>, base: nat, stopAt: Option<nat>)
      returns (completed: bool, wholeCallGraph: Dict<string, CallGraph>, wholeCallNetwork: Graph)
      modifies this`stopped
      ensures completed <==> !StopDuring(old(stopped), stopAt, base, |willScan|)
      ensures stopped == (old(stopped) || (|willScan| > 0 && stopAt.Some? && stopAt.value < base + |willScan|))
      ensures completed ==> (wholeCallGraph, wholeCallNetwork) == Scanned(path, env, willScan)
    {
      wholeCallGraph, wholeCallNetwork := Empty(), EmptyGraph();
      var i := 0;
      while i < |willScan|
        invariant 0 <= i <= |willScan|
        invariant stopped == old(stopped) && !StopDuring(old(stopped), stopAt, base, i)
        invariant (wholeCallGraph, wholeCallNetwork) == Scanned(path, env, willScan[..i])
      {
        var stop := Poll(base + i, stopAt);
        if stop {
          return false, wholeCallGraph, wholeCallNetwork;
        }
        var f := willScan[i];
        ScannedSnoc(path, env, willScan, i);
        var filePath := FilePath(f);
        var _, callGraph, require := ScanOneFile(env, filePath, f.read);
        var relativeFilePath := RelativeKey(path, filePath);
        wholeCallGraph := wholeCallGraph.Put(relativeFilePath, callGraph);
        var packageName := PackageName(filePath);
        wholeCallNetwork := Link(wholeCallNetwork, relativeFilePath, packageName,
                                 DefaultMain(packageName, env.hash(filePath)), callGraph, require);
        i := i + 1;
      }
      assert willScan[..i] == willScan;
      completed := true;
    }

    /** Both phases, with the polls numbered across them. None when the flag stopped the scan. */
    method Scan(files: seq<WalkedFile>, exts: seq<string>, env: Env, stopAt: Option<nat>)
      returns (result: Option<(Dict<string, CallGraph>, Graph)>)
      modifies this`stopped
      ensures result == GuiPhasesResult(path, old(stopped), files, exts, env, stopAt)
    {
      ghost var stoppedBefore := stopped;
      var completed, willScan := CollectFiles(files, exts, stopAt);
      if !completed {
        return None;
      }
      assert stopped == stoppedBefore;
      var whole, net;
      completed, whole, net := ScanFiles(env, willScan, |files|, stopAt);
      if !completed {
        return None;
      }
      return Some((whole, net));
    }

    /**
     * `run`. `dirFailure` and `dumpFailure` are the errors creating the
     * storage directory and dumping the network raise, if any; `stopAt`
     * places a `stop` from another thread among the polls.
     */
    method Run(files: seq<WalkedFile>, env: Env, stopAt: Option<nat>,
               dirFailure: Option<string>, dumpFailure: Option<string>)
      modifies this
      ensures dirFailure.Some? ==>
                status == FAILED && failure == dirFailure && extensions == old(extensions)
                && stored == old(stored) && finished == old(finished)
      ensures dirFailure.None? ==>
                var r := GuiPhasesResult(path, old(stopped), files, EffectiveExtensions(old(extensions)), env, stopAt);
                && extensions == EffectiveExtensions(old(extensions))
                && (r.None? ==> status == ABORTED && stored == old(stored) && finished == old(finished) && failure == old(failure))
                && (r.Some? && dumpFailure.Some? ==>
                      status == FAILED && failure == dumpFailure && stored == old(stored) && finished == old(finished))
                && (r.Some? && dumpFailure.None? ==>
                      status == FINISHED && failure == old(failure)
                      && stored == Some(r.value.1) && finished == Some(r.value))
    {
      status := SCANNING;
      if dirFailure.Some? {
        failure := dirFailure;
        status := FAILED;
        return;
      }
      if extensions == [] {
        extensions := DEFAULT_EXTENSIONS;
      }
      var result := Scan(files, extensions, env, stopAt);
      if result.None? {
        status := ABORTED;
        return;
      }
      if dumpFailure.Some? {
        failure := dumpFailure;
        status := FAILED;
        return;
      }
      stored := Some(result.value.1);
      status := FINISHED;
      finished := Some(result.value);
    }
  }

  // ---------------------------------------------------------------------------
  // The main window

  /** `[ext.strip() for ext in text.split(",")]`. */
  function ParseExtensions(text: string): (exts: seq<string>)
    ensures |exts| == Count(text, ',') + 1
  {
    SplitCount(text, ',');
    seq(|Split(text, ',')|, i requires 0 <= i < |Split(text, ',')| => Strip(Split(text, ',')[i]))
  }

  /** Every parsed extension is free of commas and of surrounding blanks. */
  lemma ParseExtensionsTrimmed(text: string, i: nat)
    requires i < |ParseExtensions(text)|
    ensures var ext := ParseExtensions(text)[i];
            && ',' !in ext
            && (|ext| > 0 ==> !IsSpace(ext[0]) && !IsSpace(ext[|ext| - 1]))
  {
    var part := Split(text, ',')[i];
    var ext := ParseExtensions(text)[i];
    assert ext == Strip(part);
    StripProperties(part);
    var a := |part| - |StripLeft(part)|;
    assert ext == part[a..a + |ext|];
    assert forall c :: c in ext ==> c in part;
  }

  /**
   * A full-width space (U+3000) typed around an extension is stripped like
   * an ASCII blank.
   */
  lemma FullWidthSpaceStripped(ext: string)
    requires forall j :: 0 <= j < |ext| ==> !IsSpace(ext[j])
    ensures Strip(['\U{3000}'] + ext + ['\U{3000}']) == ext
  {
    var t := ['\U{3000}'] + ext + ['\U{3000}'];
    assert IsSpace(t[0]);
    var u := t[1..];
    assert u == ext + ['\U{3000}'];
    if ext == [] {
      assert IsSpace(u[0]) && u[1..] == [];
    } else {
      assert u[0] == ext[0];
      assert StripLeft(u) == u;
      assert IsSpace(u[|u| - 1]) && u[..|u| - 1] == ext;
      StripUnchanged(ext);
      assert StripLeft(ext) == ext;
    }
  }

  /** Text without commas or blanks is the one extension it spells. */
  lemma ParseExtensionsSingle(text: string)
    requires ',' !in text && forall j :: 0 <= j < |text| ==> !IsSpace(text[j])
    ensures ParseExtensions(text) == [text]
  {
    assert Split(text, ',') == [text];
    StripUnchanged(text);
  }

  /** A string with no blank character is its own strip. */
  lemma StripUnchanged(s: string)
    requires forall j :: 0 <= j < |s| ==> !IsSpace(s[j])
    ensures Strip(s) == s
  {
    assert StripLeft(s) == s;
  }

  /**
   * The parsed list is never empty, so the thread's `.lua` default never
   * applies to what the window passes; a blank field gives the one empty
   * extension, which every path ends with.
   */
  lemma BlankExtensionsSelectEverything(text: string, path: string)
    ensures ParseExtensions(text) != []
    ensures ParseExtensions("") == [""]
    ensures HasExtension(path, ParseExtensions(""))
  {
    assert Split("", ',') == [""];
    assert Strip("") == "";
    assert EndsWith(path, ParseExtensions("")[0]);
  }

  /** The messages after which the window is no longer scanning. */
  predicate IsTerminal(message: string) {
    message == FINISHED || message == FAILED || message == ABORTED
  }

  class Lus4nGui {
    /** Where the scan stores its network when the storage field is empty. */
    const defaultStoragePath: string
    /** The recent-query combo box. */
    const recent: RecentCombo
    /** The path, storage and extension fields. */
    var pathInput: string
    var storageInput: string
    var extensionsInput: string
    var scanning: bool
    /** The status-bar message. */
    var statusMessage: string
    var progressVisible: bool
    var scanThread: ScanThread?

    constructor (defaultStoragePath: string)
      ensures this.defaultStoragePath == defaultStoragePath && fresh(recent) && recent.items == []
      ensures pathInput == "" && storageInput == "" && extensionsInput == ".lua"
      ensures !scanning && !progressVisible && scanThread == null
    {
      this.defaultStoragePath := defaultStoragePath;
      recent := new RecentCombo();
      pathInput := "";
      storageInput := "";
      extensionsInput := ".lua";
      scanning := false;
      statusMessage := "";
      progressVisible := false;
      scanThread := null;
    }

    /** `update_status`: show the message; the three terminal messages end the scan. */
    method UpdateStatus(message: string)
      modifies this`statusMessage, this`progressVisible, this`scanning
      ensures statusMessage == message
      ensures IsTerminal(message) ==> !scanning && !progressVisible
      ensures !IsTerminal(message) ==> scanning == old(scanning) && progressVisible == old(progressVisible)
    {
      statusMessage := message;
      if message == FINISHED || message == FAILED || message == ABORTED {
        progressVisible := false;
        scanning := false;
      }
    }

    /**
     * `start_scan`. Nothing happens while a scan is running or when the path
     * field is empty or names nothing (`pathExists` is what `os.path.exists`
     * says); otherwise the storage field falls back to the default, and a new
     * thread is made with the parsed extensions while the window is marked
     * as scanning.
     */
    method StartScan(pathExists: bool) returns (started: bool)
      modifies this
      ensures started <==> !old(scanning) && old(pathInput) != "" && pathExists
      ensures !started ==> unchanged(this)
      ensures started ==>
                && scanning && progressVisible && statusMessage == SCANNING
                && pathInput == old(pathInput) && extensionsInput == old(extensionsInput)
                && storageInput == (if old(storageInput) == "" then defaultStoragePath else old(storageInput))
                && scanThread != null && fresh(scanThread)
                && scanThread.path == pathInput && scanThread.storage == storageInput
                && scanThread.extensions == ParseExtensions(extensionsInput)
                && !scanThread.stopped && scanThread.finished.None? && scanThread.stored.None?
    {
      if scanning {
        return false;
      }
      var path := pathInput;
      if path == "" || !pathExists {
        return false;
      }
      var storage := storageInput;
      if storage == "" {
        storage := defaultStoragePath;
        storageInput := storage;
      }
      var extensions := ParseExtensions(extensionsInput);
      progressVisible := true;
      statusMessage := SCANNING;
      scanning := true;
      scanThread := new ScanThread(path, storage, extensions);
      started := true;
    }

    /**
     * The thread's run followed by the last status message it sends: every
     * way `run` ends sends a terminal message, so the window stops scanning.
     */
    method AwaitScan(files: seq<WalkedFile>, env: Env, stopAt: Option<nat>,
                     dirFailure: Option<string>, dumpFailure: Option<string>)
      requires scanThread != null
      modifies this`statusMessage, this`progressVisible, this`scanning, scanThread
      ensures !scanning && !progressVisible && IsTerminal(statusMessage)
      ensures statusMessage == scanThread.status
    {
      var thread := scanThread;
      thread.Run(files, env, stopAt, dirFailure, dumpFailure);
      UpdateStatus(thread.status);
    }

    /** `add_recent_query`. */
    method AddRecentQuery(query: string)
      modifies recent
      ensures recent.items == WithRecent(old(recent.items), query)
    {
      AddRecent(recent, query);
    }
  }
}
