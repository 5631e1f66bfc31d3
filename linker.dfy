/**
 * The cross-file linker: the loop of lus4n/graph.py `scan_path` (copied into
 * both scan threads) that turns one file's call graph into nodes and edges of
 * the call network, and the names it derives on the way (the root-relative
 * key, the package name and the exported-name rewrite).
 */
module Linker {
  import opened Wrappers
  import opened Seqs
  import opened Text
  import opened PyDict
  import opened Network
  import opened LuaAst
  import opened Visitor

  /** The suffix every occurrence of which is cut from a file's base name to get its package name. */
  const LUA_SUFFIX: string := ".lua"

  /**
   * `file_path[len(root):]`, with a '/' put in front unless it already starts
   * with one (Python slicing: a root longer than the path leaves "").
   */
  function RelativeKey(root: string, path: string): (key: string)
    ensures StartsWith(key, "/")
    ensures |root| <= |path| ==> key == path[|root|..] || key == "/" + path[|root|..]
  {
    var rel := if |root| <= |path| then path[|root|..] else "";
    if StartsWith(rel, "/") then rel else "/" + rel
  }

  /** Under the root, the key is what follows the root, with a '/' in front when the root took it. */
  lemma RelativeKeyRoundTrip(root: string, path: string)
    requires StartsWith(path, root)
    ensures var key := RelativeKey(root, path);
            path == root + key || path == root + key[1..]
  {
    assert path == root + path[|root|..];
  }

  /** A file directly under a root directory is keyed by "/" and its name. */
  lemma RelativeKeyOfJoin(root: string, name: string)
    requires root != [] && !StartsWith(name, "/")
    ensures RelativeKey(root, PathJoin(root, name)) == "/" + name
  {
    if EndsWith(root, "/") {
      assert PathJoin(root, name)[|root|..] == name;
    } else {
      assert PathJoin(root, name)[|root|..] == "/" + name;
    }
  }

  /** `os.path.basename(file_path).replace(".lua", "")`. */
  function PackageName(path: string): (pkg: string)
    ensures '/' !in pkg && |pkg| <= |Basename(path)|
  {
    var base := Basename(path);
    RemoveAllKeeps(base, LUA_SUFFIX, '/');
    RemoveAll(base, LUA_SUFFIX)
  }

  /** Removing occurrences of a pattern introduces no character. */
  lemma {:induction false} RemoveAllKeeps(s: string, pat: string, c: char)
    requires |pat| > 0 && c !in s
    ensures c !in RemoveAll(s, pat)
    decreases |s|
  {
    if |s| > 0 {
      if StartsWith(s, pat) {
        RemoveAllKeeps(s[|pat|..], pat, c);
      } else {
        RemoveAllKeeps(s[1..], pat, c);
      }
    }
  }

  /** When the pattern occurs only at the very end, removing it leaves what precedes it. */
  lemma {:induction false} RemoveAllTrailing(s: string, pat: string)
    requires |pat| > 0
    requires forall i: nat :: i < |s| ==> !OccursAt(s + pat, pat, i)
    ensures RemoveAll(s + pat, pat) == s
    decreases |s|
  {
    if |s| == 0 {
      assert s + pat == pat;
      assert pat[|pat|..] == [];
    } else {
      assert !StartsWith(s + pat, pat) by {
        assert !OccursAt(s + pat, pat, 0);
      }
      forall i: nat | i < |s[1..]| ensures !OccursAt(s[1..] + pat, pat, i) {
        assert !OccursAt(s + pat, pat, i + 1);
        if i + |pat| <= |s[1..] + pat| {
          assert (s[1..] + pat)[i..i + |pat|] == (s + pat)[i + 1..i + 1 + |pat|];
        }
      }
      RemoveAllTrailing(s[1..], pat);
      assert (s + pat)[1..] == s[1..] + pat;
      assert s == [s[0]] + s[1..];
    }
  }

  /** The base name of a path that ends in "/" and a name without '/'. */
  lemma {:induction false} BasenameOfJoin(dir: string, name: string)
    requires '/' !in name
    ensures Basename(dir + "/" + name) == name
    decreases |name|
  {
    var p := dir + "/" + name;
    if |name| == 0 {
      assert p[|p| - 1] == '/';
    } else {
      assert p[..|p| - 1] == dir + "/" + name[..|name| - 1];
      BasenameOfJoin(dir, name[..|name| - 1]);
      assert name == name[..|name| - 1] + [name[|name| - 1]];
    }
  }

  /** A file `<dir>/<stem>.lua` whose stem holds no ".lua" and no '/' has the stem as its package name. */
  lemma PackageNameOfLuaFile(dir: string, stem: string)
    requires '/' !in stem
    requires forall i: nat :: i < |stem| ==> !OccursAt(stem + LUA_SUFFIX, LUA_SUFFIX, i)
    ensures PackageName(dir + "/" + stem + LUA_SUFFIX) == stem
  {
    assert dir + "/" + stem + LUA_SUFFIX == dir + "/" + (stem + LUA_SUFFIX);
    assert '/' !in stem + LUA_SUFFIX;
    BasenameOfJoin(dir, stem + LUA_SUFFIX);
    RemoveAllTrailing(stem, LUA_SUFFIX);
  }

  /**
   * The symbol an exported function is linked under. A dotted name whose
   * first segment is not a required module is taken to be a member of the
   * file's own module table and is renamed to the package name followed by
   * the rest of the name (its leading '.' included); any other name is kept.
   */
  function ExportedName(packageName: string, exported: string, require: seq<string>): (sym: string)
    ensures '.' !in exported ==> sym == exported
    ensures '.' in exported ==>
              var i := IndexOf(exported, '.');
              && (exported[..i] in require ==> sym == exported)
              && (exported[..i] !in require ==> sym == packageName + exported[i..] && exported[i] == '.')
  {
    var subNames := Split(exported, '.');
    SplitFirst(exported, '.');
    if |subNames| > 1 then
      var father := subNames[0];
      var left := exported[|father|..];
      if father !in require then packageName + left else exported
    else exported
  }

  /** One change the linker makes to the network. */
  datatype Write = FileNode(n: string) | Edge(u: string, v: string, action: Action)

  function ApplyWrite(g: Graph, w: Write): (h: Graph)
    ensures Valid(g) ==> Valid(h)
  {
    match w
    case FileNode(n) => AddFileNode(g, n)
    case Edge(u, v, a) => AddEdge(g, u, v, a)
  }

  /** The network after the writes `ws`, in order. */
  function ApplyWrites(g: Graph, ws: seq<Write>): (h: Graph)
    ensures Valid(g) ==> Valid(h)
  {
    if |ws| == 0 then g else ApplyWrite(ApplyWrites(g, ws[..|ws| - 1]), ws[|ws| - 1])
  }

  lemma {:induction false} ApplyWritesAppend(g: Graph, a: seq<Write>, b: seq<Write>)
    ensures ApplyWrites(g, a + b) == ApplyWrites(ApplyWrites(g, a), b)
    decreases |b|
  {
    if |b| == 0 {
      assert a + b == a;
    } else {
      assert (a + b)[..|a + b| - 1] == a + b[..|b| - 1];
      ApplyWritesAppend(g, a, b[..|b| - 1]);
    }
  }

  /** The action of the last write to the edge (u, v), if any. */
  function LastWrite(ws: seq<Write>, u: string, v: string): (r: Option<Action>)
    ensures r.Some? ==> Edge(u, v, r.value) in ws
    ensures r.None? ==> forall a :: Edge(u, v, a) !in ws
  {
    if |ws| == 0 then None
    else
      var w := ws[|ws| - 1];
      assert ws == ws[..|ws| - 1] + [w];
      if w.Edge? && w.u == u && w.v == v then Some(w.action) else LastWrite(ws[..|ws| - 1], u, v)
  }

  /**
   * Re-adding an edge overwrites its action: after the writes, an edge is
   * present exactly when it was before or was written, and its action is that
   * of the last write to it.
   */
  lemma {:induction false} LastWriteWins(g: Graph, ws: seq<Write>, u: string, v: string)
    ensures (u, v) in ApplyWrites(g, ws).edges <==> (u, v) in g.edges || LastWrite(ws, u, v).Some?
    ensures LastWrite(ws, u, v).Some? ==> ApplyWrites(g, ws).edges[(u, v)] == LastWrite(ws, u, v).value
    ensures LastWrite(ws, u, v).None? && (u, v) in g.edges ==> ApplyWrites(g, ws).edges[(u, v)] == g.edges[(u, v)]
  {
    if |ws| > 0 {
      LastWriteWins(g, ws[..|ws| - 1], u, v);
    }
  }

  /**
   * File roles: a node written as a file node is a file afterwards, and a
   * node that was not in the network and was never written as a file node
   * is not.
   */
  lemma {:induction false} FileRoles(g: Graph, ws: seq<Write>, n: string)
    ensures FileNode(n) in ws ==> IsFile(ApplyWrites(g, ws), n)
    ensures !HasNode(g, n) && FileNode(n) !in ws ==> !IsFile(ApplyWrites(g, ws), n)
    ensures HasNode(g, n) && FileNode(n) !in ws ==> (IsFile(ApplyWrites(g, ws), n) <==> IsFile(g, n))
  {
    if |ws| > 0 {
      var init := ws[..|ws| - 1];
      assert ws == init + [ws[|ws| - 1]];
      FileRoles(g, init, n);
    }
  }

  /** `add_edge(f, c, action='call')` for each callee `c`, in order. */
  function CallEdges(f: string, callees: seq<string>): (ws: seq<Write>)
    ensures |ws| == |callees|
    ensures forall i :: 0 <= i < |ws| ==> ws[i] == Edge(f, callees[i], Action.Call)
  {
    if |callees| == 0 then [] else CallEdges(f, callees[..|callees| - 1]) + [Edge(f, callees[|callees| - 1], Action.Call)]
  }

  /** For each global callee: the export edge to the file's default main, then the call edge. */
  function GlobalWrites(rel: string, main: string, callees: seq<string>): (ws: seq<Write>)
    ensures |ws| == 2 * |callees|
    ensures forall i :: 0 <= i < |callees| ==> ws[2 * i] == Edge(rel, main, Export) && ws[2 * i + 1] == Edge(main, callees[i], Action.Call)
  {
    if |callees| == 0 then []
    else GlobalWrites(rel, main, callees[..|callees| - 1]) + [Edge(rel, main, Export), Edge(main, callees[|callees| - 1], Action.Call)]
  }

  /** The `[G]` rule. */
  function GlobalPart(rel: string, main: string, k: string, callees: seq<string>): seq<Write> {
    if k == GLOBAL_TAG then GlobalWrites(rel, main, callees) else []
  }

  /** The `[X]` rule: the file exports the (renamed) function, which calls its callees. */
  function ExportPart(rel: string, pkg: string, require: seq<string>, k: string, callees: seq<string>): seq<Write> {
    if StartsWith(k, EXPORTED_PREFIX)
    then var sym := ExportedName(pkg, RemoveAll(k, EXPORTED_PREFIX), require);
         [Edge(rel, sym, Export)] + CallEdges(sym, callees)
    else []
  }

  /** The `[L]` rule: the file defines the function, which calls its callees. */
  function LocalPart(rel: string, k: string, callees: seq<string>): seq<Write> {
    if StartsWith(k, LOCAL_PREFIX)
    then var defined := RemoveAll(k, LOCAL_PREFIX);
         [Edge(rel, defined, Define)] + CallEdges(defined, callees)
    else []
  }

  /** The writes for one scope of the file's call graph; a key can match at most one of the three rules. */
  function KeyWrites(rel: string, pkg: string, main: string, require: seq<string>, k: string, callees: seq<string>): seq<Write> {
    GlobalPart(rel, main, k, callees) + ExportPart(rel, pkg, require, k, callees) + LocalPart(rel, k, callees)
  }

  /**
   * The three rules exclude one another: `[G]`, `[X]` and `[L]` differ in
   * their second character, so a key matches at most one of them.
   */
  lemma KeyRulesExclusive(rel: string, pkg: string, main: string, require: seq<string>, k: string, callees: seq<string>)
    ensures GlobalPart(rel, main, k, callees) != [] ==> ExportPart(rel, pkg, require, k, callees) == [] && LocalPart(rel, k, callees) == []
    ensures ExportPart(rel, pkg, require, k, callees) != [] ==> LocalPart(rel, k, callees) == []
    ensures KeyWrites(rel, pkg, main, require, k, callees) ==
              if k == GLOBAL_TAG then GlobalPart(rel, main, k, callees)
              else if StartsWith(k, EXPORTED_PREFIX) then ExportPart(rel, pkg, require, k, callees)
              else LocalPart(rel, k, callees)
  {
    if StartsWith(k, EXPORTED_PREFIX) {
      assert k[1] == EXPORTED_PREFIX[1] == 'X';
    }
    if StartsWith(k, LOCAL_PREFIX) {
      assert k[1] == LOCAL_PREFIX[1] == 'L';
    }
    if k == GLOBAL_TAG {
      assert k[1] == 'G';
    }
  }

  /** The writes for the scopes `keys`, in order. */
  function KeysWrites(rel: string, pkg: string, main: string, require: seq<string>, cg: CallGraph, keys: seq<string>): seq<Write>
    requires forall k :: k in keys ==> k in cg.items
  {
    if |keys| == 0 then []
    else
      var k := keys[|keys| - 1];
      KeysWrites(rel, pkg, main, require, cg, keys[..|keys| - 1]) + KeyWrites(rel, pkg, main, require, k, cg.items[k])
  }

  /** Everything linking one file writes: its file node, then each scope in call-graph order. */
  function FileWrites(rel: string, pkg: string, main: string, cg: CallGraph, require: seq<string>): seq<Write>
    requires cg.Valid()
  {
    [FileNode(rel)] + KeysWrites(rel, pkg, main, require, cg, cg.keys)
  }

  /** The name of the file's default main: package name, ".main.", and the hash of the full path. */
  function DefaultMain(pkg: string, pathHash: string): (main: string)
    ensures StartsWith(main, pkg) && EndsWith(main, pathHash)
  {
    pkg + ".main." + pathHash
  }

  /** The global scope links the file to its default main only when it has a callee, and the main to each callee. */
  lemma GlobalWritesMeaning(rel: string, main: string, callees: seq<string>, w: Write)
    ensures w in GlobalWrites(rel, main, callees) <==>
            (|callees| > 0 && w == Edge(rel, main, Export)) || (exists c :: c in callees && w == Edge(main, c, Action.Call))
  {
    var ws := GlobalWrites(rel, main, callees);
    if w in ws {
      var j :| 0 <= j < |ws| && ws[j] == w;
      var i := j / 2;
      assert j == 2 * i || j == 2 * i + 1;
      assert callees[i] in callees;
    }
    if |callees| > 0 && w == Edge(rel, main, Export) {
      assert ws[0] == w;
    }
    if exists c :: c in callees && w == Edge(main, c, Action.Call) {
      var c :| c in callees && w == Edge(main, c, Action.Call);
      var i :| 0 <= i < |callees| && callees[i] == c;
      assert ws[2 * i + 1] == w;
    }
  }

  /** An exported or local scope links the file to its symbol, whether or not it has callees, and the symbol to each callee. */
  lemma ScopeWritesMeaning(rel: string, sym: string, a: Action, callees: seq<string>, w: Write)
    ensures w in [Edge(rel, sym, a)] + CallEdges(sym, callees) <==>
            w == Edge(rel, sym, a) || (exists c :: c in callees && w == Edge(sym, c, Action.Call))
  {
    var ws := CallEdges(sym, callees);
    if w in ws {
      var j :| 0 <= j < |ws| && ws[j] == w;
      assert callees[j] in callees;
    }
    if exists c :: c in callees && w == Edge(sym, c, Action.Call) {
      var c :| c in callees && w == Edge(sym, c, Action.Call);
      var i :| 0 <= i < |callees| && callees[i] == c;
      assert ws[i] == w;
    }
  }

  /** The linker reads a function's dotted name back out of the scope tag the visitor gave it. */
  lemma TagRoundTrip(exported: bool, parts: seq<string>)
    requires forall i :: 0 <= i < |parts| ==> '[' !in parts[i]
    ensures exported ==> RemoveAll(ScopeTag(true, parts), EXPORTED_PREFIX) == JoinWith(parts, '.')
    ensures !exported ==> RemoveAll(ScopeTag(false, parts), LOCAL_PREFIX) == JoinWith(parts, '.')
  {
    var name := JoinWith(parts, '.');
    NoBracketInJoin(parts);
    var prefix := if exported then EXPORTED_PREFIX else LOCAL_PREFIX;
    FirstCharAbsent(name, prefix);
    RemoveAllAbsent(name, prefix);
    var tag := prefix + name;
    assert StartsWith(tag, prefix);
    assert tag[|prefix|..] == name;
  }

  /** A pattern whose first character is not in a string does not occur in it. */
  lemma FirstCharAbsent(s: string, pat: string)
    requires |pat| > 0 && pat[0] !in s
    ensures forall i: nat :: !OccursAt(s, pat, i)
  {
    forall i: nat ensures !OccursAt(s, pat, i) {
      if i + |pat| <= |s| {
        assert s[i..i + |pat|][0] == s[i];
      }
    }
  }

  lemma {:induction false} NoBracketInJoin(parts: seq<string>)
    requires forall i :: 0 <= i < |parts| ==> '[' !in parts[i]
    ensures '[' !in JoinWith(parts, '.')
  {
    if |parts| > 1 {
      NoBracketInJoin(parts[1..]);
    }
  }

  /**
   * Linking one file into the network: the loop shared by `scan_path` and
   * both scan threads. The network is threaded through as a value.
   */
  method Link(net: Graph, rel: string, pkg: string, main: string, cg: CallGraph, require: seq<string>) returns (out: Graph)
    requires cg.Valid()
    ensures out == ApplyWrites(net, FileWrites(rel, pkg, main, cg, require))
  {
    out := AddFileNode(net, rel);
    assert out == ApplyWrites(net, [FileNode(rel)]) by {
      assert [FileNode(rel)][..0] == [];
    }
    ghost var done: seq<Write> := [FileNode(rel)];
    var keys := cg.keys;
    var i := 0;
    while i < |keys|
      invariant 0 <= i <= |keys|
      invariant done == [FileNode(rel)] + KeysWrites(rel, pkg, main, require, cg, keys[..i])
      invariant out == ApplyWrites(net, done)
    {
      KeysWritesSnoc(rel, pkg, main, require, cg, keys, i);
      out, done := LinkKey(out, done, net, rel, pkg, main, require, keys[i], cg.items[keys[i]]);
      i := i + 1;
    }
    assert keys[..i] == keys;
  }

  lemma KeysWritesSnoc(rel: string, pkg: string, main: string, require: seq<string>, cg: CallGraph, keys: seq<string>, i: nat)
    requires i < |keys| && forall k :: k in keys ==> k in cg.items
    ensures [FileNode(rel)] + KeysWrites(rel, pkg, main, require, cg, keys[..i + 1])
         == [FileNode(rel)] + KeysWrites(rel, pkg, main, require, cg, keys[..i]) + KeyWrites(rel, pkg, main, require, keys[i], cg.items[keys[i]])
  {
    assert keys[..i + 1][..i] == keys[..i];
  }

  /** The writes for one scope (`KeyRulesExclusive`: at most one of the three rules applies to a key). */
  method LinkKey(g: Graph, ghost done: seq<Write>, ghost net: Graph, rel: string, pkg: string, main: string,
                 require: seq<string>, k: string, callees: seq<string>)
    returns (out: Graph, ghost done': seq<Write>)
    requires g == ApplyWrites(net, done)
    ensures done' == done + KeyWrites(rel, pkg, main, require, k, callees)
    ensures out == ApplyWrites(net, done')
  {
    out, done' := g, done;
    if k == GLOBAL_TAG {
      out, done' := LinkGlobal(out, done', net, rel, main, callees);
    }
    assert done' == done + GlobalPart(rel, main, k, callees);
    ghost var mid := done';
    if StartsWith(k, EXPORTED_PREFIX) {
      var sym := ExportedName(pkg, RemoveAll(k, EXPORTED_PREFIX), require);
      out, done' := LinkScope(out, done', net, rel, sym, Export, callees);
    }
    assert done' == mid + ExportPart(rel, pkg, require, k, callees);
    ghost var mid2 := done';
    if StartsWith(k, LOCAL_PREFIX) {
      var defined := RemoveAll(k, LOCAL_PREFIX);
      out, done' := LinkScope(out, done', net, rel, defined, Define, callees);
    }
    assert done' == mid2 + LocalPart(rel, k, callees);
    AppendThree(done, GlobalPart(rel, main, k, callees), ExportPart(rel, pkg, require, k, callees), LocalPart(rel, k, callees));
  }

  lemma AppendThree(d: seq<Write>, a: seq<Write>, b: seq<Write>, c: seq<Write>)
    ensures d + a + b + c == d + (a + b + c)
  {
  }

  /** The `[G]` rule: an export edge and a call edge per callee. */
  method LinkGlobal(g: Graph, ghost done: seq<Write>, ghost net: Graph, rel: string, main: string, callees: seq<string>)
    returns (out: Graph, ghost done': seq<Write>)
    requires g == ApplyWrites(net, done)
    ensures done' == done + GlobalWrites(rel, main, callees)
    ensures out == ApplyWrites(net, done')
  {
    out, done' := g, done;
    var j := 0;
    while j < |callees|
      invariant 0 <= j <= |callees|
      invariant done' == done + GlobalWrites(rel, main, callees[..j])
      invariant out == ApplyWrites(net, done')
    {
      assert callees[..j + 1][..j] == callees[..j];
      out := AddEdge(out, rel, main, Export);
      done' := done' + [Edge(rel, main, Export)];
      out := AddEdge(out, main, callees[j], Action.Call);
      done' := done' + [Edge(main, callees[j], Action.Call)];
      j := j + 1;
    }
    assert callees[..j] == callees;
  }

  /** The `[X]` and `[L]` rules: an edge from the file to the symbol, then a call edge per callee. */
  method LinkScope(g: Graph, ghost done: seq<Write>, ghost net: Graph, rel: string, sym: string, a: Action, callees: seq<string>)
    returns (out: Graph, ghost done': seq<Write>)
    requires g == ApplyWrites(net, done)
    ensures done' == done + ([Edge(rel, sym, a)] + CallEdges(sym, callees))
    ensures out == ApplyWrites(net, done')
  {
    out := AddEdge(g, rel, sym, a);
    done' := done + [Edge(rel, sym, a)];
    ApplyWritesAppend(net, done, [Edge(rel, sym, a)]);
    assert [Edge(rel, sym, a)][..0] == [];
    var j := 0;
    while j < |callees|
      invariant 0 <= j <= |callees|
      invariant done' == done + ([Edge(rel, sym, a)] + CallEdges(sym, callees[..j]))
      invariant out == ApplyWrites(net, done')
    {
      assert callees[..j + 1][..j] == callees[..j];
      out := AddEdge(out, sym, callees[j], Action.Call);
      done' := done' + [Edge(sym, callees[j], Action.Call)];
      j := j + 1;
    }
    assert callees[..j] == callees;
  }
}
