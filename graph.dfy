/**
 * The scan driver of lus4n/graph.py: `scan_one_file` (read, binary test,
 * decode, parse, visit) and `scan_path` (select the files of a directory
 * tree, scan each, key its call graph by its root-relative path and link it
 * into the call network).
 */
module Lus4nGraph {
  import opened Wrappers
  import opened Seqs
  import opened Text
  import opened PyDict
  import opened Network
  import opened Ingest
  import opened LuaAst
  import opened Visitor
  import opened Linker

  /** What the Lua parser does with a source text. */
  datatype ParseOutcome = Parsed(tree: Node) | SyntaxError | ParseFailure(reason: string)

  /** The foreign pieces a scan calls: the two regional codecs, the Lua parser and the xxh32 hex digest. */
  datatype Env = Env(codecs: Codecs, parse: string -> ParseOutcome, hash: string -> string)

  /** The extensions a scan selects when none are given. */
  const DEFAULT_EXTENSIONS: seq<string> := [".lua"]

  /**
   * The call graph and require list `scan_one_file` returns for a file whose
   * read gives `read`. Every failure (a read error, binary content, a parse
   * error or an error while visiting) gives the empty pair.
   */
  function ScanResult(env: Env, read: ReadResult): (r: (CallGraph, seq<string>))
    ensures r.0.Valid()
    ensures !read.Content? ==> r == (Empty(), [])
    ensures read.Content? && LooksBinary(StripBom(read.bytes)) ==> r == (Empty(), [])
  {
    match read
    case Content(raw) =>
      var data := StripBom(raw);
      if LooksBinary(data) then (Empty(), [])
      else
        var source := Decoded(env.codecs, data);
        (match env.parse(source)
         case Parsed(tree) =>
           (match Extract(source, tree)
            case Some(res) => res
            case None => (Empty(), []))
         case _ => (Empty(), []))
    case _ => (Empty(), [])
  }

  /**
   * What `scan_one_file` returns for a readable text file: the empty pair
   * when the parser rejects the decoded text or the walk raises; otherwise a
   * call graph with an entry for exactly the scopes in which the file makes
   * a call, each a global, exported or local scope whose duplicate-free
   * callee list holds exactly the resolved targets of those calls, and a
   * require list holding exactly the strings the file requires.
   */
  lemma ScanResultMeaning(env: Env, read: ReadResult, k: string, c: string, s: string)
    requires read.Content? && !LooksBinary(StripBom(read.bytes))
    ensures var source := Decoded(env.codecs, StripBom(read.bytes));
            var (cg, req) := ScanResult(env, read);
            && (!env.parse(source).Parsed? ==> (cg, req) == (Empty(), []))
            && (env.parse(source).Parsed? && Sites(source, env.parse(source).tree, []).None? ==> (cg, req) == (Empty(), []))
            && (env.parse(source).Parsed? && Sites(source, env.parse(source).tree, []).Some? ==>
                  var sites := Sites(source, env.parse(source).tree, []).value;
                  && (k in cg.items <==> HasScope(sites, k))
                  && (k in cg.items ==> KnownScope(k) && Distinct(cg.items[k]))
                  && (k in cg.items ==> (c in cg.items[k] <==> HasCallee(sites, k, c)))
                  && (s in req <==> HasRequired(sites, s)))
  {
    var source := Decoded(env.codecs, StripBom(read.bytes));
    if env.parse(source).Parsed? && Sites(source, env.parse(source).tree, []).Some? {
      ExtractMeaning(source, env.parse(source).tree, k, c, s);
    }
  }

  /** Precompiled Lua chunks yield nothing: their first byte is a control byte. */
  lemma BytecodeYieldsNothing(env: Env, raw: seq<Byte>)
    requires StartsWith(raw, BYTECODE_SIGNATURE)
    ensures ScanResult(env, Content(raw)) == (Empty(), [])
  {
    assert !StartsWith(raw, BOM) by {
      assert raw[0] == 0x1B;
    }
    BytecodeLooksBinary(raw);
  }

  /** `scan_one_file`: the file's path, call graph and require list. */
  method ScanOneFile(env: Env, path: string, read: ReadResult) returns (p: string, cg: CallGraph, req: seq<string>)
    ensures p == path && (cg, req) == ScanResult(env, read)
  {
    p, cg, req := path, Empty(), [];
    if !read.Content? {
      return;
    }
    var data := StripBom(read.bytes);
    var binary := IsBinary(data);
    if binary {
      return;
    }
    var source := Decode(env.codecs, data);
    var outcome := env.parse(source);
    if !outcome.Parsed? {
      return;
    }
    var visitor := new Lus4nVisitor(source);
    ghost var start := visitor.State();
    var ok := visitor.Visit(outcome.tree);
    WalkNotesSites(source, outcome.tree, start);
    if !ok {
      return;
    }
    ghost var sites := Sites(source, outcome.tree, []).value;
    assert visitor.callGraph == RecordAll(Empty(), sites);
    assert visitor.require == Requirements(sites);
    cg, req := visitor.Output();
  }

  /** A file os.walk lists: the directory it is in, its name, and what reading it gives. */
  datatype WalkedFile = WalkedFile(dir: string, name: string, read: ReadResult)

  function FilePath(f: WalkedFile): string {
    PathJoin(f.dir, f.name)
  }

  /** The full path ends with one of the extensions. */
  predicate HasExtension(path: string, extensions: seq<string>) {
    exists i :: 0 <= i < |extensions| && EndsWith(path, extensions[i])
  }

  /**
   * A file is scanned when it could be read and either has a listed extension
   * and is not a precompiled chunk, or starts with the Lua shebang line.
   */
  predicate Selected(path: string, read: ReadResult, extensions: seq<string>) {
    && read.Content?
    && ((HasExtension(path, extensions) && !StartsWith(read.bytes, BYTECODE_SIGNATURE))
        || StartsWith(read.bytes, SHEBANG))
  }

  /** The files the walk selects, in walk order. */
  function WillScan(files: seq<WalkedFile>, extensions: seq<string>): (r: seq<WalkedFile>)
    ensures |r| <= |files|
  {
    if |files| == 0 then []
    else
      var f := files[|files| - 1];
      WillScan(files[..|files| - 1], extensions) + if Selected(FilePath(f), f.read, extensions) then [f] else []
  }

  /** A walked file is in the scan list exactly when it is selected. */
  lemma {:induction false} WillScanMembers(files: seq<WalkedFile>, extensions: seq<string>, f: WalkedFile)
    ensures f in WillScan(files, extensions) <==> f in files && Selected(FilePath(f), f.read, extensions)
  {
    if |files| > 0 {
      var init := files[..|files| - 1];
      assert files == init + [files[|files| - 1]];
      WillScanMembers(init, extensions, f);
    }
  }

  /** A precompiled chunk is never scanned, whatever its name. */
  lemma BytecodeNeverScanned(path: string, raw: seq<Byte>, extensions: seq<string>)
    requires StartsWith(raw, BYTECODE_SIGNATURE)
    ensures !Selected(path, Content(raw), extensions)
  {
    assert raw[0] != SHEBANG[0];
  }

  /** Scanning and linking the files `files`, in order, into a whole call graph and a network. */
  function Scanned(root: string, env: Env, files: seq<WalkedFile>): (Dict<string, CallGraph>, Graph) {
    (WholeCallGraph(root, env, files), WholeNetwork(root, env, files))
  }

  /** The whole call graph: each scanned file's call graph put under its relative key. */
  function WholeCallGraph(root: string, env: Env, files: seq<WalkedFile>): (whole: Dict<string, CallGraph>)
    ensures whole.Valid()
  {
    if |files| == 0 then Empty()
    else
      var f := files[|files| - 1];
      WholeCallGraph(root, env, files[..|files| - 1]).Put(RelativeKey(root, FilePath(f)), ScanResult(env, f.read).0)
  }

  /** The whole network: each scanned file's writes applied in turn. */
  function WholeNetwork(root: string, env: Env, files: seq<WalkedFile>): (net: Graph)
    ensures Valid(net)
  {
    if |files| == 0 then EmptyGraph()
    else ApplyWrites(WholeNetwork(root, env, files[..|files| - 1]), ScanWrites(root, env, files[|files| - 1]))
  }

  /** The network writes for one scanned file. */
  function ScanWrites(root: string, env: Env, f: WalkedFile): seq<Write> {
    var path := FilePath(f);
    var (cg, req) := ScanResult(env, f.read);
    var pkg := PackageName(path);
    FileWrites(RelativeKey(root, path), pkg, DefaultMain(pkg, env.hash(path)), cg, req)
  }

  /** What `scan_path` returns. */
  function ScanPathResult(root: string, env: Env, files: seq<WalkedFile>, extensions: Option<seq<string>>): (Dict<string, CallGraph>, Graph) {
    var exts := if extensions.None? then DEFAULT_EXTENSIONS else extensions.value;
    Scanned(root, env, WillScan(files, exts))
  }

  /**
   * After scanning, the whole call graph has an entry for exactly the
   * relative keys of the scanned files.
   */
  lemma {:induction false} ScannedKeys(root: string, env: Env, files: seq<WalkedFile>, n: string)
    ensures n in WholeCallGraph(root, env, files).items <==> n in RelativeKeys(root, files)
  {
    if |files| > 0 {
      var k := |files| - 1;
      var init := files[..k];
      ScannedKeys(root, env, init, n);
      assert WholeCallGraph(root, env, files)
             == WholeCallGraph(root, env, init).Put(RelativeKey(root, FilePath(files[k])), ScanResult(env, files[k].read).0);
      assert RelativeKeys(root, files) == RelativeKeys(root, init) + [RelativeKey(root, FilePath(files[k]))];
    }
  }

  /** The relative keys of the files, in order. */
  function RelativeKeys(root: string, files: seq<WalkedFile>): (keys: seq<string>)
    ensures |keys| == |files|
    ensures forall i :: 0 <= i < |files| ==> keys[i] == RelativeKey(root, FilePath(files[i]))
  {
    if |files| == 0 then []
    else RelativeKeys(root, files[..|files| - 1]) + [RelativeKey(root, FilePath(files[|files| - 1]))]
  }

  /** The file nodes of the network are exactly the keys of the whole call graph. */
  lemma {:induction false} ScannedFileNodes(root: string, env: Env, files: seq<WalkedFile>, n: string)
    ensures IsFile(WholeNetwork(root, env, files), n) <==> n in WholeCallGraph(root, env, files).items
  {
    if |files| > 0 {
      var k := |files| - 1;
      var f := files[k];
      var init := files[..k];
      ScannedFileNodes(root, env, init, n);
      var ws := ScanWrites(root, env, f);
      var rel := RelativeKey(root, FilePath(f));
      assert WholeNetwork(root, env, files) == ApplyWrites(WholeNetwork(root, env, init), ws);
      assert WholeCallGraph(root, env, files) == WholeCallGraph(root, env, init).Put(rel, ScanResult(env, f.read).0);
      assert ws[0] == FileNode(rel);
      FileRoles(WholeNetwork(root, env, init), ws, n);
      if n != rel {
        ScanWritesFileNodes(root, env, f, n);
      }
    }
  }

  /** The only file node one file's writes add is the file's own key. */
  lemma ScanWritesFileNodes(root: string, env: Env, f: WalkedFile, n: string)
    requires n != RelativeKey(root, FilePath(f))
    ensures FileNode(n) !in ScanWrites(root, env, f)
  {
    var path := FilePath(f);
    var (cg, req) := ScanResult(env, f.read);
    var pkg := PackageName(path);
    KeysWritesEdgesOnly(RelativeKey(root, path), pkg, DefaultMain(pkg, env.hash(path)), req, cg, cg.keys, n);
  }

  lemma {:induction false} KeysWritesEdgesOnly(rel: string, pkg: string, main: string, require: seq<string>,
                                               cg: CallGraph, keys: seq<string>, n: string)
    requires forall k :: k in keys ==> k in cg.items
    ensures FileNode(n) !in KeysWrites(rel, pkg, main, require, cg, keys)
  {
    if |keys| > 0 {
      KeysWritesEdgesOnly(rel, pkg, main, require, cg, keys[..|keys| - 1], n);
      var k := keys[|keys| - 1];
      var callees := cg.items[k];
      GlobalWritesEdges(rel, main, callees, n);
      CallEdgesEdges(ExportedName(pkg, RemoveAll(k, EXPORTED_PREFIX), require), callees, n);
      CallEdgesEdges(RemoveAll(k, LOCAL_PREFIX), callees, n);
    }
  }

  lemma GlobalWritesEdges(rel: string, main: string, callees: seq<string>, n: string)
    ensures FileNode(n) !in GlobalWrites(rel, main, callees)
  {
  }

  lemma CallEdgesEdges(f: string, callees: seq<string>, n: string)
    ensures FileNode(n) !in CallEdges(f, callees)
  {
  }

  /** The selection loop of `scan_path`: the walked files that will be scanned, in walk order. */
  method SelectFiles(files: seq<WalkedFile>, exts: seq<string>) returns (willScan: seq<WalkedFile>)
    ensures willScan == WillScan(files, exts)
  {
    willScan := [];
    var i := 0;
    while i < |files|
      invariant 0 <= i <= |files|
      invariant willScan == WillScan(files[..i], exts)
    {
      WillScanSnoc(files, exts, i);
      var keep := SelectOne(files[i], exts);
      if keep {
        willScan := willScan + [files[i]];
      }
      i := i + 1;
    }
    assert files[..i] == files;
  }

  /** The test `scan_path` applies to one walked file. */
  method SelectOne(f: WalkedFile, exts: seq<string>) returns (keep: bool)
    ensures keep == Selected(FilePath(f), f.read, exts)
  {
    keep := false;
    match f.read {
      case Content(content) =>
        var path := FilePath(f);
        if HasExtension(path, exts) && !StartsWith(content, BYTECODE_SIGNATURE) {
          keep := true;
        } else if StartsWith(content, SHEBANG) {
          keep := true;
        }
      case _ =>
    }
  }

  /** One more walked file: it is appended to the scan list when it is selected. */
  lemma WillScanSnoc(files: seq<WalkedFile>, extensions: seq<string>, i: nat)
    requires i < |files|
    ensures WillScan(files[..i + 1], extensions)
            == WillScan(files[..i], extensions)
               + if Selected(FilePath(files[i]), files[i].read, extensions) then [files[i]] else []
  {
    assert files[..i + 1][..i] == files[..i];
  }

  /** One more scanned file: its entry is put and its writes are applied. */
  lemma ScannedSnoc(root: string, env: Env, files: seq<WalkedFile>, i: nat)
    requires i < |files|
    ensures var prev := Scanned(root, env, files[..i]);
            var f := files[i];
            Scanned(root, env, files[..i + 1])
            == (prev.0.Put(RelativeKey(root, FilePath(f)), ScanResult(env, f.read).0),
                ApplyWrites(prev.1, ScanWrites(root, env, f)))
  {
    assert files[..i + 1][..i] == files[..i];
  }

  /** The scanning loop of `scan_path`: each selected file is scanned, keyed and linked. */
  method ScanAll(root: string, env: Env, willScan: seq<WalkedFile>)
    returns (wholeCallGraph: Dict<string, CallGraph>, wholeCallNetwork: Graph)
    ensures (wholeCallGraph, wholeCallNetwork) == Scanned(root, env, willScan)
  {
    wholeCallGraph, wholeCallNetwork := Empty(), EmptyGraph();
    var j := 0;
    while j < |willScan|
      invariant 0 <= j <= |willScan|
      invariant (wholeCallGraph, wholeCallNetwork) == Scanned(root, env, willScan[..j])
    {
      var f := willScan[j];
      ScannedSnoc(root, env, willScan, j);
      var path := FilePath(f);
      var _, cg, req := ScanOneFile(env, path, f.read);
      var rel := RelativeKey(root, path);
      wholeCallGraph := wholeCallGraph.Put(rel, cg);
      var pkg := PackageName(path);
      wholeCallNetwork := Link(wholeCallNetwork, rel, pkg, DefaultMain(pkg, env.hash(path)), cg, req);
      j := j + 1;
    }
    assert willScan[..j] == willScan;
  }

  /** `scan_path`: select the files of the walk, then scan and link each in turn. */
  method ScanPath(root: string, files: seq<WalkedFile>, extensions: Option<seq<string>>, env: Env)
    returns (wholeCallGraph: Dict<string, CallGraph>, wholeCallNetwork: Graph)
    ensures (wholeCallGraph, wholeCallNetwork) == ScanPathResult(root, env, files, extensions)
  {
    var exts := if extensions.None? then DEFAULT_EXTENSIONS else extensions.value;
    var willScan := SelectFiles(files, exts);
    wholeCallGraph, wholeCallNetwork := ScanAll(root, env, willScan);
  }
}
