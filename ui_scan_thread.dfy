/**
 * The background scan of lus4n/ui/scan_thread.py, class ScanThread. Its `run`
 * walks the tree and sorts every file into "will scan" or "skipped, with a
 * reason"; then it scans the kept files one by one, records a status per
 * file, and links only the files that came back with status "成功" (success)
 * and a non-empty call graph. Finally it stores the result and tallies the
 * statuses. Before each file of either phase it looks at its `stopped` flag,
 * which `stop` sets from another thread.
 */
module UiScanThread {
  import opened Wrappers
  import opened Seqs
  import opened Text
  import opened PyDict
  import opened Network
  import opened Ingest
  import opened Visitor
  import opened Linker
  import opened Lus4nGraph
  import opened ScanStatus

  // Per-file statuses and skip reasons
  const SUCCESS: string := "成功"
  const PARSE_ERROR: string := "解析错误："
  const BINARY_SKIP: string := "二进制/加密文件"
  const INVALID_TYPE: string := "无效的文件类型"
  const PERMISSION_SKIP: string := "权限错误"
  const UNKNOWN_SKIP: string := "未知错误: "

  /**
   * Why a walked file is skipped, or None when it will be scanned. A read
   * error is a skip; a file whose first 1024 raw bytes look binary is a skip
   * whatever its name or first line; otherwise the file is kept when its name
   * ends with an extension and it is not a precompiled chunk, or when it
   * starts with the Lua shebang line.
   */
  function Classify(f: WalkedFile, exts: seq<string>): Option<string> {
    match f.read
    case PermissionFailure => Some(PERMISSION_SKIP)
    case ReadFailure(e) => Some(UNKNOWN_SKIP + e)
    case Content(content) =>
      if LooksBinary(content) then Some(BINARY_SKIP)
      else if HasExtension(f.name, exts) && !StartsWith(content, BYTECODE_SIGNATURE) then None
      else if StartsWith(content, SHEBANG) then None
      else Some(INVALID_TYPE)
  }

  /**
   * The skip reasons: a read error gives its reason, binary content is
   * skipped whatever its name or first line, and a file is kept exactly when
   * it is readable, not binary, and selected by its file name and content.
   */
  lemma ClassifyReasons(f: WalkedFile, exts: seq<string>)
    ensures f.read.PermissionFailure? ==> Classify(f, exts) == Some(PERMISSION_SKIP)
    ensures f.read.ReadFailure? ==> Classify(f, exts) == Some(UNKNOWN_SKIP + f.read.reason)
    ensures f.read.Content? && LooksBinary(f.read.bytes) ==> Classify(f, exts) == Some(BINARY_SKIP)
    ensures Classify(f, exts).None? <==> f.read.Content? && Selected(f.name, f.read, exts) && !LooksBinary(f.read.bytes)
  {
  }

  /** Where one classified file goes: to the end of the scan list, or to the end of the skip list with its reason. */
  function Route(lists: (seq<string>, seq<(string, string)>), f: WalkedFile, reason: Option<string>)
    : (r: (seq<string>, seq<(string, string)>))
    ensures reason.None? ==> r == (lists.0 + [FilePath(f)], lists.1)
    ensures reason.Some? ==> r == (lists.0, lists.1 + [(FilePath(f), reason.value)])
  {
    match reason
    case None => (lists.0 + [FilePath(f)], lists.1)
    case Some(why) => (lists.0, lists.1 + [(FilePath(f), why)])
  }

  /** The two lists the walk phase builds: the paths to scan, and the skipped paths with their reasons. */
  function Collect(files: seq<WalkedFile>, exts: seq<string>): (r: (seq<string>, seq<(string, string)>))
    ensures |r.0| + |r.1| == |files|
  {
    if |files| == 0 then ([], [])
    else
      var f := files[|files| - 1];
      Route(Collect(files[..|files| - 1], exts), f, Classify(f, exts))
  }

  /** Classifying one more walked file appends it to one of the two lists. */
  lemma CollectSnoc(files: seq<WalkedFile>, exts: seq<string>, i: nat)
    requires i < |files|
    ensures Collect(files[..i + 1], exts) == Route(Collect(files[..i], exts), files[i], Classify(files[i], exts))
  {
    assert files[..i + 1][..i] == files[..i];
  }

  /** The walk over every file is the walk over the whole list. */
  lemma CollectAll(files: seq<WalkedFile>, exts: seq<string>, i: nat)
    requires i == |files|
    ensures Collect(files[..i], exts) == Collect(files, exts)
  {
    assert files[..i] == files;
  }

  /**
   * Every walked file lands in one of the two lists: in the scan list when it
   * is kept, in the skip list with its reason otherwise, and nothing else is
   * in either list.
   */
  lemma {:induction false} CollectPartition(files: seq<WalkedFile>, exts: seq<string>, p: string, reason: string)
    ensures var (will, skipped) := Collect(files, exts);
            && (p in will <==> exists f :: f in files && FilePath(f) == p && Classify(f, exts).None?)
            && ((p, reason) in skipped <==> exists f :: f in files && FilePath(f) == p && Classify(f, exts) == Some(reason))
  {
    if |files| > 0 {
      var init := files[..|files| - 1];
      var f := files[|files| - 1];
      assert files == init + [f];
      CollectPartition(init, exts, p, reason);
      forall g | g in files
        ensures g in init || g == f
      {
      }
    }
  }

  /** A file that starts with a byte-order mark is skipped as binary: the walk tests the raw bytes. */
  lemma BomFileSkipped(f: WalkedFile, exts: seq<string>)
    requires f.read.Content? && StartsWith(f.read.bytes, BOM)
    ensures Classify(f, exts) == Some(BINARY_SKIP)
  {
    assert Suspicious(f.read.bytes[0]);
  }

  /** A shebang file with a non-ASCII byte among its first 1024 is skipped as binary, not scanned. */
  lemma BinaryShebangSkipped(f: WalkedFile, exts: seq<string>, i: nat)
    requires f.read.Content? && StartsWith(f.read.bytes, SHEBANG)
    requires i < |f.read.bytes| && i < SCAN_WINDOW && f.read.bytes[i] >= 127
    ensures Classify(f, exts) == Some(BINARY_SKIP)
  {
    assert Suspicious(f.read.bytes[i]);
  }

  /** The extensions are matched against the file name; a name with no listed extension needs the shebang line. */
  lemma NameDecides(f: WalkedFile, exts: seq<string>)
    requires f.read.Content? && !LooksBinary(f.read.bytes) && !StartsWith(f.read.bytes, SHEBANG)
    ensures Classify(f, exts).None? <==> HasExtension(f.name, exts)
  {
    if HasExtension(f.name, exts) {
      assert !StartsWith(f.read.bytes, BYTECODE_SIGNATURE) by {
        if StartsWith(f.read.bytes, BYTECODE_SIGNATURE) {
          BytecodeLooksBinary(f.read.bytes);
        }
      }
    }
  }

  // ---------------------------------------------------------------------------
  // Processing

  /**
   * What `scan_one_file(file_path, "json", False)` gives the processing loop:
   * a call graph, a require list and a status, or an exception's message.
   */
  datatype FileOutcome = Returned(callGraph: CallGraph, require: seq<string>, status: string) | Raised(message: string)

  /**
   * The calls the thread makes that the model takes as given: the per-path
   * scan outcome, `os.path.relpath(file_path, root)` and the xxh32 hex digest.
   */
  datatype Calls = Calls(outcome: string -> FileOutcome, relpath: string -> string, hash: string -> string) {
    /** A call graph the scan returns is a dict. */
    ghost predicate Valid() {
      forall p :: outcome(p).Returned? ==> outcome(p).callGraph.Valid()
    }
  }

  /** The status recorded for a file: the one returned, or the parse-error text with the message. */
  function StatusOf(o: FileOutcome): (s: string)
    ensures o.Returned? ==> s == o.status
    ensures o.Raised? ==> s == PARSE_ERROR + o.message && StartsWith(s, PARSE_ERROR)
  {
    match o
    case Returned(_, _, status) => status
    case Raised(message) => PARSE_ERROR + message
  }

  /** Only a success with a non-empty call graph is linked. */
  predicate Links(o: FileOutcome) {
    o.Returned? && o.status == SUCCESS && |o.callGraph.keys| > 0
  }

  /** The whole call graph, the network and the per-file status table the processing loop builds. */
  datatype Progress = Progress(whole: Dict<string, CallGraph>, net: Graph, processed: Dict<string, string>)

  function Start(): Progress {
    Progress(Empty(), EmptyGraph(), Empty())
  }

  /** Processing one path. */
  function Step(root: string, calls: Calls, p: Progress, path: string): Progress
    requires calls.Valid()
  {
    var o := calls.outcome(path);
    var processed := p.processed.Put(calls.relpath(path), StatusOf(o));
    if Links(o) then
      var rel := RelativeKey(root, path);
      var pkg := PackageName(path);
      Progress(p.whole.Put(rel, o.callGraph),
               ApplyWrites(p.net, FileWrites(rel, pkg, DefaultMain(pkg, calls.hash(path)), o.callGraph, o.require)),
               processed)
    else
      Progress(p.whole, p.net, processed)
  }

  /** Processing the paths in order. */
  function Processed(root: string, calls: Calls, paths: seq<string>): (r: Progress)
    requires calls.Valid()
    ensures r.whole.Valid() && Valid(r.net) && r.processed.Valid()
  {
    if |paths| == 0 then Start()
    else Step(root, calls, Processed(root, calls, paths[..|paths| - 1]), paths[|paths| - 1])
  }

  /** Processing one more path is one more step. */
  lemma ProcessedSnoc(root: string, calls: Calls, paths: seq<string>, i: nat)
    requires calls.Valid() && i < |paths|
    ensures Processed(root, calls, paths[..i + 1]) == Step(root, calls, Processed(root, calls, paths[..i]), paths[i])
  {
    assert paths[..i + 1][..i] == paths[..i];
  }

  /**
   * After processing, every path has a status under its relative path, taken
   * from some file with that relative path, and nothing else has one.
   */
  lemma {:induction false} ProcessedStatus(root: string, calls: Calls, paths: seq<string>, n: string)
    requires calls.Valid()
    ensures var r := Processed(root, calls, paths);
            && (n in r.processed.items <==> exists p :: p in paths && calls.relpath(p) == n)
            && (n in r.processed.items ==>
                  exists p :: p in paths && calls.relpath(p) == n && r.processed.items[n] == StatusOf(calls.outcome(p)))
  {
    if |paths| > 0 {
      var init := paths[..|paths| - 1];
      var path := paths[|paths| - 1];
      assert paths == init + [path];
      ProcessedStatus(root, calls, init, n);
      forall q | q in paths
        ensures q in init || q == path
      {
      }
    }
  }

  /**
   * After processing, the whole call graph and the file nodes of the network
   * hold exactly the keys of the linked files.
   */
  lemma {:induction false} ProcessedLinks(root: string, calls: Calls, paths: seq<string>, n: string)
    requires calls.Valid()
    ensures var r := Processed(root, calls, paths);
            && (n in r.whole.items <==> exists p :: p in paths && Links(calls.outcome(p)) && RelativeKey(root, p) == n)
            && (IsFile(r.net, n) <==> n in r.whole.items)
  {
    if |paths| > 0 {
      var init := paths[..|paths| - 1];
      var path := paths[|paths| - 1];
      assert paths == init + [path];
      ProcessedLinks(root, calls, init, n);
      forall q | q in paths
        ensures q in init || q == path
      {
      }
      var o := calls.outcome(path);
      if Links(o) {
        var prev := Processed(root, calls, init);
        var rel := RelativeKey(root, path);
        var pkg := PackageName(path);
        var main := DefaultMain(pkg, calls.hash(path));
        var ws := FileWrites(rel, pkg, main, o.callGraph, o.require);
        assert ws[0] == FileNode(rel);
        FileRoles(prev.net, ws, n);
        if n != rel {
          KeysWritesEdgesOnly(rel, pkg, main, o.require, o.callGraph, o.callGraph.keys, n);
          assert FileNode(n) !in ws;
        }
      }
    }
  }

  /** A file whose scan raises, or does not succeed, adds nothing to the network. */
  lemma FailureLinksNothing(root: string, calls: Calls, p: Progress, path: string)
    requires calls.Valid() && !Links(calls.outcome(path))
    ensures Step(root, calls, p, path).net == p.net
    ensures Step(root, calls, p, path).whole == p.whole
  {
  }

  // ---------------------------------------------------------------------------
  // Status tallies

  /** The statuses of the table, in table order. */
  function Values(d: Dict<string, string>): (vs: seq<string>)
    requires d.Valid()
    ensures |vs| == |d.keys|
    ensures forall i :: 0 <= i < |d.keys| ==> vs[i] == d.items[d.keys[i]]
  {
    seq(|d.keys|, i requires 0 <= i < |d.keys| => d.items[d.keys[i]])
  }

  /** `status_counts.get(s, 0)`. */
  function Get(counts: Dict<string, int>, s: string): int {
    if s in counts.items then counts.items[s] else 0
  }

  /**
   * How often each status occurs, counted one status at a time as the tally
   * loop does.
   */
  function Counts(statuses: seq<string>): (m: map<string, int>)
    ensures forall x :: x in m <==> x in statuses
    ensures forall x :: x in m ==> m[x] == Count(statuses, x)
  {
    if |statuses| == 0 then map[]
    else
      var init := statuses[..|statuses| - 1];
      var s := statuses[|statuses| - 1];
      var m := Counts(init);
      assert statuses == init + [s];
      CountZero(init, s);
      m[s := (if s in m then m[s] else 0) + 1]
  }

  /**
   * The tallies of a status list: every status that occurs, in order of first
   * occurrence (the insertion order of the dict), with its number of occurrences.
   */
  function Tally(statuses: seq<string>): (counts: Dict<string, int>)
    ensures counts.Valid()
    ensures forall s :: s in counts.items ==> counts.items[s] == Count(statuses, s)
  {
    Dict(Dedup(statuses), Counts(statuses))
  }

  /** One more status: its count goes up by one, and a new status is added at the end. */
  lemma TallySnoc(statuses: seq<string>, s: string)
    ensures Tally(statuses + [s]) == Tally(statuses).Put(s, Get(Tally(statuses), s) + 1)
  {
    DedupSnoc(statuses, s);
    assert (statuses + [s])[..|statuses|] == statuses;
  }

  /** The sum of the counts over the keys `keys`. */
  function SumOver(keys: seq<string>, counts: map<string, int>): int
    requires forall k :: k in keys ==> k in counts
  {
    if |keys| == 0 then 0
    else SumOver(keys[..|keys| - 1], counts) + counts[keys[|keys| - 1]]
  }

  /** The sum of all counts. */
  function Total(counts: Dict<string, int>): int
    requires counts.Valid()
  {
    SumOver(counts.keys, counts.items)
  }

  /** The sum of the occurrence counts in `statuses` of the keys `keys`. */
  function SumCounts(keys: seq<string>, statuses: seq<string>): int {
    if |keys| == 0 then 0
    else SumCounts(keys[..|keys| - 1], statuses) + Count(statuses, keys[|keys| - 1])
  }

  /** Every status is counted once: the tallies add up to the number of statuses. */
  lemma {:induction false} TallySum(statuses: seq<string>)
    ensures Total(Tally(statuses)) == |statuses|
  {
    var counts := Tally(statuses);
    SumOverCounts(counts.keys, counts.items, statuses);
    DedupSumCounts(statuses);
  }

  lemma {:induction false} SumOverCounts(keys: seq<string>, counts: map<string, int>, statuses: seq<string>)
    requires forall k :: k in keys ==> k in counts && counts[k] == Count(statuses, k)
    ensures SumOver(keys, counts) == SumCounts(keys, statuses)
  {
    if |keys| > 0 {
      SumOverCounts(keys[..|keys| - 1], counts, statuses);
    }
  }

  /** Summing, over the distinct statuses, how often each occurs gives the number of statuses. */
  lemma {:induction false} DedupSumCounts(statuses: seq<string>)
    ensures SumCounts(Dedup(statuses), statuses) == |statuses|
  {
    if |statuses| > 0 {
      var init := statuses[..|statuses| - 1];
      var s := statuses[|statuses| - 1];
      assert statuses == init + [s];
      DedupSumCounts(init);
      var keys := Dedup(init);
      SumCountsSnoc(keys, init, s);
      if s !in keys {
        CountZero(init, s);
        assert Dedup(statuses) == keys + [s];
        assert (keys + [s])[..|keys|] == keys;
      }
    }
  }

  /** Adding one status adds one to the sum exactly when the keys list it, once. */
  lemma {:induction false} SumCountsSnoc(keys: seq<string>, statuses: seq<string>, s: string)
    requires Distinct(keys)
    ensures SumCounts(keys, statuses + [s]) == SumCounts(keys, statuses) + (if s in keys then 1 else 0)
  {
    if |keys| > 0 {
      var init := keys[..|keys| - 1];
      var last := keys[|keys| - 1];
      assert keys == init + [last];
      SumCountsSnoc(init, statuses, s);
      assert (statuses + [s])[..|statuses|] == statuses;
      assert last !in init;
    }
  }

  /** The tally loop over the status table. */
  method TallyStatuses(processed: Dict<string, string>) returns (counts: Dict<string, int>)
    requires processed.Valid()
    ensures counts == Tally(Values(processed))
  {
    counts := TallyAll(Values(processed));
  }

  /** Counting the statuses one at a time into an initially empty dict. */
  method TallyAll(statuses: seq<string>) returns (counts: Dict<string, int>)
    ensures counts == Tally(statuses)
  {
    counts := Empty();
    var i := 0;
    while i < |statuses|
      invariant 0 <= i <= |statuses|
      invariant counts == Tally(statuses[..i])
    {
      assert statuses[..i + 1] == statuses[..i] + [statuses[i]];
      TallySnoc(statuses[..i], statuses[i]);
      counts := counts.Put(statuses[i], Get(counts, statuses[i]) + 1);
      i := i + 1;
    }
    assert statuses[..i] == statuses;
  }

  /**
   * What the two phases of a run give: None when the flag is seen at one of
   * the polls, otherwise the processing result of the files the walk kept.
   */
  function PhasesResult(root: string, stoppedBefore: bool, files: seq<WalkedFile>, exts: seq<string>,
                        calls: Calls, stopAt: Option<nat>): Option<Progress>
    requires calls.Valid()
  {
    var willScan := Collect(files, exts).0;
    if StopDuring(stoppedBefore, stopAt, 0, |files| + |willScan|) then None
    else Some(Processed(root, calls, willScan))
  }

  /** What `dump` writes to the storage file. */
  datatype Stored = Stored(wholeCallGraph: Dict<string, CallGraph>, wholeCallNetwork: Graph, fileStatus: Dict<string, string>)

  class ScanThread {
    const path: string
    const storage: string
    var extensions: seq<string>
    var stopped: bool
    /** The last message sent to the status bar. */
    var status: string
    /** What `scan_finished` carried, if it was sent. */
    var finished: Option<(Dict<string, CallGraph>, Graph)>
    /** What `scan_error` carried, if it was sent. */
    var failure: Option<string>
    /** What the storage file holds. */
    var stored: Option<Stored>

    constructor (path: string, storage: string, extensions: seq<string>)
      ensures this.path == path && this.storage == storage && this.extensions == extensions
      ensures !stopped && status == "" && finished.None? && failure.None? && stored.None?
    {
      this.path := path;
      this.storage := storage;
      this.extensions := extensions;
      stopped := false;
      status := "";
      finished := None;
      failure := None;
      stored := None;
    }

    /** `stop`: sets the flag the running scan polls. */
    method Stop()
      modifies this`stopped
      ensures stopped
    {
      stopped := true;
    }

    /** One poll of the flag, numbered `k`; a `stop` landing before it is applied first. */
    method Poll(k: nat, stopAt: Option<nat>) returns (stop: bool)
      modifies this`stopped
      ensures stopped == (old(stopped) || (stopAt.Some? && stopAt.value <= k))
      ensures stop == stopped
    {
      if stopAt.Some? && stopAt.value <= k {
        Stop();
      }
      stop := stopped;
    }

    /** The walk phase: classify every walked file, polling the flag before each. */
    method CollectFiles(files: seq<WalkedFile>, exts: seq<string>, stopAt: Option<nat>)
      returns (completed: bool, willScan: seq<string>, skipped: seq<(string, string)>)
      modifies this`stopped
      ensures completed <==> !StopDuring(old(stopped), stopAt, 0, |files|)
      ensures stopped == (old(stopped) || (|files| > 0 && stopAt.Some? && stopAt.value < |files|))
      ensures completed ==> (willScan, skipped) == Collect(files, exts)
    {
      willScan, skipped := [], [];
      var i := 0;
      while i < |files|
        invariant 0 <= i <= |files|
        invariant stopped == old(stopped) && !StopDuring(old(stopped), stopAt, 0, i)
        invariant (willScan, skipped) == Collect(files[..i], exts)
      {
        var stop := Poll(i, stopAt);
        if stop {
          return false, willScan, skipped;
        }
        willScan, skipped := WalkOne(files, exts, i, willScan, skipped);
        i := i + 1;
      }
      CollectAll(files, exts, i);
      completed := true;
    }

    /** One file of the walk: the lists grow by what classifying it gives. */
    static method WalkOne(files: seq<WalkedFile>, exts: seq<string>, i: nat, willScan: seq<string>, skipped: seq<(string, string)>)
      returns (willScan': seq<string>, skipped': seq<(string, string)>)
      requires i < |files| && (willScan, skipped) == Collect(files[..i], exts)
      ensures (willScan', skipped') == Collect(files[..i + 1], exts)
    {
      CollectSnoc(files, exts, i);
      willScan', skipped' := SortFile(files[i], exts, willScan, skipped);
    }

    /** The body of the walk loop for one file: skip it with its reason, or keep it for scanning. */
    static method SortFile(f: WalkedFile, exts: seq<string>, willScan: seq<string>, skipped: seq<(string, string)>)
      returns (willScan': seq<string>, skipped': seq<(string, string)>)
      ensures (willScan', skipped') == Route((willScan, skipped), f, Classify(f, exts))
    {
      willScan', skipped' := willScan, skipped;
      var reason := Classify(f, exts);
      match reason {
        case None => willScan' := willScan + [FilePath(f)];
        case Some(r) => skipped' := skipped + [(FilePath(f), r)];
      }
    }

    /** One file of the processing phase. */
    static method ProcessOne(root: string, calls: Calls, p: Progress, file: string) returns (next: Progress)
      requires calls.Valid()
      ensures next == Step(root, calls, p, file)
    {
      var o := calls.outcome(file);
      var relPath := calls.relpath(file);
      var processed := p.processed.Put(relPath, StatusOf(o));
      next := Progress(p.whole, p.net, processed);
      if o.Returned? && o.status == SUCCESS && |o.callGraph.keys| > 0 {
        var rel := RelativeKey(root, file);
        var pkg := PackageName(file);
        var net := Link(p.net, rel, pkg, DefaultMain(pkg, calls.hash(file)), o.callGraph, o.require);
        next := Progress(p.whole.Put(rel, o.callGraph), net, processed);
      }
    }

    /** The processing phase: scan each kept path, polling the flag before each; polls are numbered from `base`. */
    method ProcessFiles(calls: Calls, willScan: seq<string>, base: nat, stopAt: Option<nat>)
      returns (completed: bool, progress: Progress)
      requires calls.Valid()
      modifies this`stopped
      ensures completed <==> !StopDuring(old(stopped), stopAt, base, |willScan|)
      ensures stopped == (old(stopped) || (|willScan| > 0 && stopAt.Some? && stopAt.value < base + |willScan|))
      ensures completed ==> progress == Processed(path, calls, willScan)
    {
      progress := Start();
      var i := 0;
      while i < |willScan|
        invariant 0 <= i <= |willScan|
        invariant stopped == old(stopped) && !StopDuring(old(stopped), stopAt, base, i)
        invariant progress == Processed(path, calls, willScan[..i])
      {
        var stop := Poll(base + i, stopAt);
        if stop {
          return false, progress;
        }
        ProcessedSnoc(path, calls, willScan, i);
        progress := ProcessOne(path, calls, progress, willScan[i]);
        i := i + 1;
      }
      assert willScan[..i] == willScan;
      completed := true;
    }

    /**
     * Both phases: the walk, then the processing of the kept files, with the
     * polls numbered across them. None when the flag stopped the scan.
     */
    method Scan(files: seq<WalkedFile>, exts: seq<string>, calls: Calls, stopAt: Option<nat>)
      returns (result: Option<Progress>)
      requires calls.Valid()
      modifies this`stopped
      ensures result == PhasesResult(path, old(stopped), files, exts, calls, stopAt)
    {
      ghost var stoppedBefore := stopped;
      var completed, willScan, skipped := CollectFiles(files, exts, stopAt);
      if !completed {
        return None;
      }
      assert stopped == stoppedBefore;
      var progress;
      completed, progress := ProcessFiles(calls, willScan, |files|, stopAt);
      if !completed {
        return None;
      }
      return Some(progress);
    }

    /**
     * `run`. `dirFailure` and `dumpFailure` are the errors creating the
     * storage directory and writing the storage file raise, if any; `stopAt`
     * places a `stop` from another thread among the polls.
     */
    method Run(files: seq<WalkedFile>, calls: Calls, stopAt: Option<nat>,
               dirFailure: Option<string>, dumpFailure: Option<string>)
      requires calls.Valid()
      modifies this
      ensures dirFailure.Some? ==>
                status == FAILED && failure == dirFailure && extensions == old(extensions)
                && stored == old(stored) && finished == old(finished)
      ensures dirFailure.None? ==>
                var r := PhasesResult(path, old(stopped), files, EffectiveExtensions(old(extensions)), calls, stopAt);
                && extensions == EffectiveExtensions(old(extensions))
                && (r.None? ==> status == ABORTED && stored == old(stored) && finished == old(finished) && failure == old(failure))
                && (r.Some? && dumpFailure.Some? ==>
                      status == FAILED && failure == dumpFailure && stored == old(stored) && finished == old(finished))
                && (r.Some? && dumpFailure.None? ==>
                      status == FINISHED && failure == old(failure)
                      && stored == Some(Stored(r.value.whole, r.value.net, r.value.processed))
                      && finished == Some((r.value.whole, r.value.net)))
    {
      status := SCANNING;
      if dirFailure.Some? {
        failure := dirFailure;
        status := FAILED;
        return;
      }
      if extensions == [] {
        extensions := DEFAULT_EXTENSIONS;
      }
      var result := Scan(files, extensions, calls, stopAt);
      if result.None? {
        status := ABORTED;
        return;
      }
      var progress := result.value;
      if dumpFailure.Some? {
        failure := dumpFailure;
        status := FAILED;
        return;
      }
      stored := Some(Stored(progress.whole, progress.net, progress.processed));
      var counts := TallyStatuses(progress.processed);
      finished := Some((progress.whole, progress.net));
      status := FINISHED;
    }
  }
}
