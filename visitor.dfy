/**
 * The call-graph extractor of lus4n/graph.py, class Lus4nVisitor: a
 * depth-first walk with an explicit stack of function scopes that notes, for
 * every call, the innermost scope and the callee, collects the string
 * arguments of `require` calls, and finally makes every scope's callee list
 * duplicate-free.
 */
module Visitor {
  import opened Wrappers
  import opened Seqs
  import opened Text
  import opened PyDict
  import opened LuaAst

  /** Scope tag to the callees noted in that scope, in the order scopes were first seen. */
  type CallGraph = Dict<string, seq<string>>

  /**
   * One call noted: its scope gets an (empty) entry if it has none yet, and
   * a resolved callee is appended to that scope's list.
   */
  function RecordSite(cg: CallGraph, site: CallSite): (r: CallGraph)
    ensures cg.Valid() ==> r.Valid()
    ensures r.items.Keys == cg.items.Keys + {site.scope}
    ensures forall k :: k in cg.items && k != site.scope ==> r.items[k] == cg.items[k]
    ensures site.scope in cg.items && site.callee.Some? ==> r.items[site.scope] == cg.items[site.scope] + [site.callee.value]
    ensures site.scope in cg.items && site.callee.None? ==> r.items[site.scope] == cg.items[site.scope]
    ensures site.scope !in cg.items && site.callee.Some? ==> r.items[site.scope] == [site.callee.value]
    ensures site.scope !in cg.items && site.callee.None? ==> r.items[site.scope] == []
  {
    var d := cg.SetDefault(site.scope, []);
    match site.callee
    case None => d
    case Some(c) => d.Put(site.scope, d.items[site.scope] + [c])
  }

  /** The call graph after noting `sites` in order. */
  function RecordAll(cg: CallGraph, sites: seq<CallSite>): (r: CallGraph)
    ensures cg.Valid() ==> r.Valid()
  {
    if |sites| == 0 then cg else RecordSite(RecordAll(cg, sites[..|sites| - 1]), sites[|sites| - 1])
  }

  /** The `require` arguments noted at `sites`, in order. */
  function Requirements(sites: seq<CallSite>): (r: seq<string>)
    ensures |r| <= |sites|
  {
    if |sites| == 0 then []
    else
      var last := sites[|sites| - 1];
      Requirements(sites[..|sites| - 1]) + (if last.required.Some? then [last.required.value] else [])
  }

  lemma {:induction false} RecordAllAppend(cg: CallGraph, a: seq<CallSite>, b: seq<CallSite>)
    ensures RecordAll(cg, a + b) == RecordAll(RecordAll(cg, a), b)
    decreases |b|
  {
    if |b| == 0 {
      assert a + b == a;
    } else {
      assert (a + b)[..|a + b| - 1] == a + b[..|b| - 1];
      RecordAllAppend(cg, a, b[..|b| - 1]);
    }
  }

  lemma {:induction false} RequirementsAppend(a: seq<CallSite>, b: seq<CallSite>)
    ensures Requirements(a + b) == Requirements(a) + Requirements(b)
    decreases |b|
  {
    if |b| == 0 {
      assert a + b == a;
    } else {
      assert (a + b)[..|a + b| - 1] == a + b[..|b| - 1];
      RequirementsAppend(a, b[..|b| - 1]);
    }
  }

  lemma RecordOne(cg: CallGraph, site: CallSite)
    ensures RecordAll(cg, [site]) == RecordSite(cg, site)
    ensures Requirements([site]) == if site.required.Some? then [site.required.value] else []
  {
    assert [site][..0] == [];
  }

  /** Some noted call was made in scope `k`. */
  predicate HasScope(sites: seq<CallSite>, k: string) {
    exists i :: 0 <= i < |sites| && sites[i].scope == k
  }

  /** Some noted call in scope `k` resolved to the callee `c`. */
  predicate HasCallee(sites: seq<CallSite>, k: string, c: string) {
    exists i :: 0 <= i < |sites| && sites[i].scope == k && sites[i].callee == Some(c)
  }

  /** Some noted call required `s`. */
  predicate HasRequired(sites: seq<CallSite>, s: string) {
    exists i :: 0 <= i < |sites| && sites[i].required == Some(s)
  }

  lemma SnocFacts(sites: seq<CallSite>, k: string, c: string, s: string)
    requires |sites| > 0
    ensures var init, last := sites[..|sites| - 1], sites[|sites| - 1];
            && (HasScope(sites, k) <==> HasScope(init, k) || last.scope == k)
            && (HasCallee(sites, k, c) <==> HasCallee(init, k, c) || (last.scope == k && last.callee == Some(c)))
            && (HasRequired(sites, s) <==> HasRequired(init, s) || last.required == Some(s))
  {
    SnocScope(sites, k);
    SnocCallee(sites, k, c);
    SnocRequired(sites, s);
  }

  lemma SnocScope(sites: seq<CallSite>, k: string)
    requires |sites| > 0
    ensures HasScope(sites, k) <==> HasScope(sites[..|sites| - 1], k) || sites[|sites| - 1].scope == k
  {
    var init := sites[..|sites| - 1];
    if HasScope(sites, k) {
      var i :| 0 <= i < |sites| && sites[i].scope == k;
      if i < |init| { assert init[i] == sites[i]; }
    }
    if HasScope(init, k) {
      var i :| 0 <= i < |init| && init[i].scope == k;
      assert sites[i] == init[i];
    }
  }

  lemma SnocCallee(sites: seq<CallSite>, k: string, c: string)
    requires |sites| > 0
    ensures var last := sites[|sites| - 1];
            HasCallee(sites, k, c) <==> HasCallee(sites[..|sites| - 1], k, c) || (last.scope == k && last.callee == Some(c))
  {
    var init := sites[..|sites| - 1];
    if HasCallee(sites, k, c) {
      var i :| 0 <= i < |sites| && sites[i].scope == k && sites[i].callee == Some(c);
      if i < |init| { assert init[i] == sites[i]; }
    }
    if HasCallee(init, k, c) {
      var i :| 0 <= i < |init| && init[i].scope == k && init[i].callee == Some(c);
      assert sites[i] == init[i];
    }
  }

  lemma SnocRequired(sites: seq<CallSite>, s: string)
    requires |sites| > 0
    ensures HasRequired(sites, s) <==> HasRequired(sites[..|sites| - 1], s) || sites[|sites| - 1].required == Some(s)
  {
    var init := sites[..|sites| - 1];
    if HasRequired(sites, s) {
      var i :| 0 <= i < |sites| && sites[i].required == Some(s);
      if i < |init| { assert init[i] == sites[i]; }
    }
    if HasRequired(init, s) {
      var i :| 0 <= i < |init| && init[i].required == Some(s);
      assert sites[i] == init[i];
    }
  }

  /**
   * A scope has an entry exactly when it had one before or some noted call
   * was made in it, whether or not that call's target was resolved.
   */
  lemma {:induction false} RecordAllScopes(cg: CallGraph, sites: seq<CallSite>, k: string)
    ensures k in RecordAll(cg, sites).items <==> k in cg.items || HasScope(sites, k)
  {
    if |sites| > 0 {
      RecordAllScopes(cg, sites[..|sites| - 1], k);
      SnocFacts(sites, k, "", "");
    }
  }

  /**
   * The callees listed for a scope are exactly those it listed before and
   * the resolved targets of the calls noted in it.
   */
  lemma {:induction false} RecordAllCallees(cg: CallGraph, sites: seq<CallSite>, k: string, c: string)
    requires k in RecordAll(cg, sites).items
    ensures c in RecordAll(cg, sites).items[k] <==> (k in cg.items && c in cg.items[k]) || HasCallee(sites, k, c)
  {
    if |sites| > 0 {
      var init := sites[..|sites| - 1];
      SnocFacts(sites, k, c, "");
      if k in RecordAll(cg, init).items {
        RecordAllCallees(cg, init, k, c);
      } else {
        RecordAllScopes(cg, init, k);
      }
    }
  }

  /** A string is required exactly when some noted call required it. */
  lemma {:induction false} RequirementsMembers(sites: seq<CallSite>, s: string)
    ensures s in Requirements(sites) <==> HasRequired(sites, s)
  {
    if |sites| > 0 {
      RequirementsMembers(sites[..|sites| - 1], s);
      SnocFacts(sites, "", "", s);
    }
  }

  /** `output`: every scope's callee list replaced by its distinct elements, scope order kept. */
  function DedupAll(cg: CallGraph): (r: CallGraph)
    ensures cg.Valid() ==> r.Valid()
    ensures r.keys == cg.keys && r.items.Keys == cg.items.Keys
    ensures forall k :: k in r.items ==> Distinct(r.items[k])
    ensures forall k, c :: k in r.items ==> (c in r.items[k] <==> c in cg.items[k])
  {
    Dict(cg.keys, map k | k in cg.items :: Dedup(cg.items[k]))
  }

  /**
   * What a successful walk of a whole file yields: the deduplicated call
   * graph and the list of required modules; None when the walk raises.
   */
  function Extract(source: string, tree: Node): Option<(CallGraph, seq<string>)> {
    match Sites(source, tree, [])
    case None => None
    case Some(sites) => Some((DedupAll(RecordAll(Empty(), sites)), Requirements(sites)))
  }

  /**
   * The extracted call graph has an entry for exactly the scopes in which a
   * call was made, every entry is a global, exported or local scope, every
   * callee list is duplicate-free and holds exactly the resolved targets of
   * the calls made in that scope, and the require list holds exactly the
   * required strings.
   */
  lemma ExtractMeaning(source: string, tree: Node, k: string, c: string, s: string)
    requires Extract(source, tree).Some?
    ensures var sites := Sites(source, tree, []).value;
            var (cg, req) := Extract(source, tree).value;
            && cg.Valid()
            && (k in cg.items <==> HasScope(sites, k))
            && (k in cg.items ==> KnownScope(k) && Distinct(cg.items[k]))
            && (k in cg.items ==> (c in cg.items[k] <==> HasCallee(sites, k, c)))
            && (s in req <==> HasRequired(sites, s))
  {
    var sites := Sites(source, tree, []).value;
    var raw := RecordAll(Empty(), sites);
    RecordAllScopes(Empty(), sites, k);
    RequirementsMembers(sites, s);
    if k in raw.items {
      RecordAllCallees(Empty(), sites, k, c);
      SiteScopesKnown(source, tree, []);
      var i :| 0 <= i < |sites| && sites[i].scope == k;
      assert sites[i] in sites;
    }
  }

  /** What the visitor holds while it walks: the scope stack, the call graph and the require list. */
  datatype VisitState = VisitState(stack: seq<string>, callGraph: CallGraph, require: seq<string>)

  /** The state after noting the calls `sites` under an unchanged stack. */
  function Apply(st: VisitState, sites: seq<CallSite>): (r: VisitState)
    ensures r.stack == st.stack
  {
    st.(callGraph := RecordAll(st.callGraph, sites), require := st.require + Requirements(sites))
  }

  /** The bookkeeping at a `Call` node, done before its children are visited. */
  function Note(source: string, st: VisitState, func: Node, args: seq<Node>): (r: VisitState)
    ensures r == Apply(st, [SiteAt(source, st.stack, func, args)])
  {
    var site := SiteAt(source, st.stack, func, args);
    RecordOne(st.callGraph, site);
    st.(callGraph := RecordSite(st.callGraph, site),
        require := st.require + if site.required.Some? then [site.required.value] else [])
  }

  /**
   * The visitor's walk of `n` from state `st`, step by step as the source
   * takes it: a function definition pushes its tag, walks its name, parameters
   * and body, and pops the top of the stack. None when a function name cannot
   * be walked. The stack is balanced: every successful walk ends with the
   * stack it started with.
   */
  function Walk(source: string, n: Node, st: VisitState): (r: Option<VisitState>)
    ensures r.Some? ==> r.value.stack == st.stack
    decreases n, 1
  {
    match n
    case Name(_) => Some(st)
    case String(_) => Some(st)
    case Index(idx, value, _, _) =>
      var s1 :- Walk(source, idx, st);
      Walk(source, value, s1)
    case Call(func, args) =>
      var s1 :- Walk(source, func, Note(source, st, func, args));
      WalkSeq(source, args, s1)
    case Function(name, _, _) =>
      var parts :- WalkFuncName(name);
      var s1 :- WalkScope(source, n, st.(stack := st.stack + [ScopeTag(true, parts)]));
      Some(s1.(stack := s1.stack[..|s1.stack| - 1]))
    case LocalFunction(name, _, _) =>
      var parts :- WalkFuncName(name);
      var s1 :- WalkScope(source, n, st.(stack := st.stack + [ScopeTag(false, parts)]));
      Some(s1.(stack := s1.stack[..|s1.stack| - 1]))
    case Other(children) => WalkSeq(source, children, st)
  }

  /** The walk of a function definition's name, parameters and body, inside its scope. */
  function WalkScope(source: string, n: Node, st: VisitState): (r: Option<VisitState>)
    requires n.Function? || n.LocalFunction?
    ensures r.Some? ==> r.value.stack == st.stack
    decreases n, 0
  {
    var s1 :- Walk(source, n.name, st);
    var s2 :- WalkSeq(source, n.params, s1);
    WalkSeq(source, n.body, s2)
  }

  /** The walk of a list of nodes, left to right. */
  function WalkSeq(source: string, cs: seq<Node>, st: VisitState): (r: Option<VisitState>)
    ensures r.Some? ==> r.value.stack == st.stack
    decreases cs
  {
    if |cs| == 0 then Some(st)
    else
      var s1 :- WalkSeq(source, cs[..|cs| - 1], st);
      Walk(source, cs[|cs| - 1], s1)
  }

  lemma ApplyAppend(st: VisitState, a: seq<CallSite>, b: seq<CallSite>)
    ensures Apply(Apply(st, a), b) == Apply(st, a + b)
  {
    var cg := RecordAll(st.callGraph, a + b);
    var req := st.require + Requirements(a + b);
    RecordAllAppend(st.callGraph, a, b);
    RequirementsAppend(a, b);
    assert req == (st.require + Requirements(a)) + Requirements(b);
    assert Apply(st, a + b) == VisitState(st.stack, cg, req);
  }

  lemma ApplyThree(st: VisitState, a: seq<CallSite>, b: seq<CallSite>, c: seq<CallSite>)
    ensures Apply(Apply(Apply(st, a), b), c) == Apply(st, a + (b + c))
  {
    var ab := a + b;
    var s2 := Apply(Apply(st, a), b);
    ApplyAppend(st, a, b);
    assert s2 == Apply(st, ab);
    ApplyAppend(st, ab, c);
    assert ab + c == a + (b + c);
  }

  /**
   * The step-by-step walk agrees with the call-site view: it succeeds exactly
   * when the call sites are defined, and then its state is the old one with
   * those call sites noted in order.
   */
  lemma {:induction false} WalkNotesSites(source: string, n: Node, st: VisitState)
    ensures Walk(source, n, st).Some? <==> Sites(source, n, st.stack).Some?
    ensures Walk(source, n, st).Some? ==> Walk(source, n, st).value == Apply(st, Sites(source, n, st.stack).value)
    decreases n, 2
  {
    match n
    case Name(_) =>
      assert Apply(st, []) == st;
    case String(_) =>
      assert Apply(st, []) == st;
    case Index(_, _, _, _) =>
      IndexNotesSites(source, n, st);
    case Call(_, _) =>
      CallNotesSites(source, n, st);
    case Function(_, _, _) =>
      ScopeNotesSites(source, n, st);
    case LocalFunction(_, _, _) =>
      ScopeNotesSites(source, n, st);
    case Other(children) =>
      WalkSeqNotesSites(source, children, st);
  }

  lemma {:induction false} IndexNotesSites(source: string, n: Node, st: VisitState)
    requires n.Index?
    ensures Walk(source, n, st).Some? <==> Sites(source, n, st.stack).Some?
    ensures Walk(source, n, st).Some? ==> Walk(source, n, st).value == Apply(st, Sites(source, n, st.stack).value)
    decreases n, 0
  {
    WalkNotesSites(source, n.idx, st);
    if Walk(source, n.idx, st).Some? {
      var s1 := Walk(source, n.idx, st).value;
      WalkNotesSites(source, n.value, s1);
      if Walk(source, n.value, s1).Some? {
        ApplyAppend(st, Sites(source, n.idx, st.stack).value, Sites(source, n.value, st.stack).value);
      }
    }
  }

  lemma {:induction false} CallNotesSites(source: string, n: Node, st: VisitState)
    requires n.Call?
    ensures Walk(source, n, st).Some? <==> Sites(source, n, st.stack).Some?
    ensures Walk(source, n, st).Some? ==> Walk(source, n, st).value == Apply(st, Sites(source, n, st.stack).value)
    decreases n, 0
  {
    var site := [SiteAt(source, st.stack, n.func, n.args)];
    var s0 := Note(source, st, n.func, n.args);
    WalkNotesSites(source, n.func, s0);
    var w1 := Walk(source, n.func, s0);
    if w1.Some? {
      var s1 := w1.value;
      WalkSeqNotesSites(source, n.args, s1);
      var w2 := WalkSeq(source, n.args, s1);
      assert Walk(source, n, st) == w2;
      if w2.Some? {
        ApplyThree(st, site, Sites(source, n.func, st.stack).value, SitesSeq(source, n.args, st.stack).value);
      }
    }
  }

  lemma {:induction false} ScopeNotesSites(source: string, n: Node, st: VisitState)
    requires n.Function? || n.LocalFunction?
    ensures Walk(source, n, st).Some? <==> Sites(source, n, st.stack).Some?
    ensures Walk(source, n, st).Some? ==> Walk(source, n, st).value == Apply(st, Sites(source, n, st.stack).value)
    decreases n, 1
  {
    var parts := WalkFuncName(n.name);
    if parts.Some? {
      var inner := st.stack + [ScopeTag(n.Function?, parts.value)];
      var s0 := st.(stack := inner);
      var body := ScopeSites(source, n, inner);
      BodyNotesSites(source, n, s0);
      if WalkScope(source, n, s0).Some? {
        var s1 := WalkScope(source, n, s0).value;
        assert s1 == Apply(s0, body.value);
        assert Walk(source, n, st).value == s1.(stack := st.stack);
      }
    }
  }

  lemma {:induction false} BodyNotesSites(source: string, n: Node, s0: VisitState)
    requires n.Function? || n.LocalFunction?
    ensures WalkScope(source, n, s0).Some? <==> ScopeSites(source, n, s0.stack).Some?
    ensures WalkScope(source, n, s0).Some? ==> WalkScope(source, n, s0).value == Apply(s0, ScopeSites(source, n, s0.stack).value)
    decreases n, 0
  {
    WalkNotesSites(source, n.name, s0);
    var w1 := Walk(source, n.name, s0);
    if w1.Some? {
      var s1 := w1.value;
      WalkSeqNotesSites(source, n.params, s1);
      var w2 := WalkSeq(source, n.params, s1);
      if w2.Some? {
        var s2 := w2.value;
        WalkSeqNotesSites(source, n.body, s2);
        var w3 := WalkSeq(source, n.body, s2);
        assert WalkScope(source, n, s0) == w3;
        if w3.Some? {
          ApplyThree(s0, Sites(source, n.name, s0.stack).value, SitesSeq(source, n.params, s0.stack).value, SitesSeq(source, n.body, s0.stack).value);
        }
      }
    }
  }

  lemma {:induction false} WalkSeqNotesSites(source: string, cs: seq<Node>, st: VisitState)
    ensures WalkSeq(source, cs, st).Some? <==> SitesSeq(source, cs, st.stack).Some?
    ensures WalkSeq(source, cs, st).Some? ==> WalkSeq(source, cs, st).value == Apply(st, SitesSeq(source, cs, st.stack).value)
    decreases cs
  {
    if |cs| == 0 {
      assert Apply(st, []) == st;
    } else {
      var init := cs[..|cs| - 1];
      WalkSeqNotesSites(source, init, st);
      if WalkSeq(source, init, st).Some? {
        var s1 := WalkSeq(source, init, st).value;
        WalkNotesSites(source, cs[|cs| - 1], s1);
        if Walk(source, cs[|cs| - 1], s1).Some? {
          ApplyAppend(st, SitesSeq(source, init, st.stack).value, Sites(source, cs[|cs| - 1], st.stack).value);
        }
      }
    }
  }

  /** The walk of one more node on the right continues the walk of the list so far. */
  lemma WalkSeqSnoc(source: string, cs: seq<Node>, i: nat, st: VisitState)
    requires i < |cs|
    ensures WalkSeq(source, cs[..i + 1], st) ==
            if WalkSeq(source, cs[..i], st).None? then None else Walk(source, cs[i], WalkSeq(source, cs[..i], st).value)
  {
    assert cs[..i + 1][..i] == cs[..i];
  }

  /** A walk that fails on a prefix of a list fails on the list. */
  lemma {:induction false} WalkSeqPrefixFails(source: string, cs: seq<Node>, k: nat, st: VisitState)
    requires k <= |cs|
    requires WalkSeq(source, cs[..k], st).None?
    ensures WalkSeq(source, cs, st).None?
    decreases |cs|
  {
    if k < |cs| {
      assert cs[..|cs| - 1][..k] == cs[..k];
      WalkSeqPrefixFails(source, cs[..|cs| - 1], k, st);
    } else {
      assert cs[..k] == cs;
    }
  }

  /** Python's `list.append` on an entry of the call graph. */
  function Append(cg: CallGraph, k: string, c: string): (r: CallGraph)
    requires k in cg.items
    ensures cg.Valid() ==> r.Valid()
    ensures r.keys == cg.keys && r.items == cg.items[k := cg.items[k] + [c]]
  {
    cg.Put(k, cg.items[k] + [c])
  }

  /** The first `i` scopes in key order have their callee lists made duplicate-free; the rest are as they were. */
  ghost predicate DedupedUpTo(orig: CallGraph, cg: CallGraph, i: nat) {
    && orig.Valid() && cg.Valid() && i <= |orig.keys|
    && cg.keys == orig.keys && cg.items.Keys == orig.items.Keys
    && (forall k :: k in cg.items ==>
          cg.items[k] == if k in orig.keys[..i] then Dedup(orig.items[k]) else orig.items[k])
  }

  /** One step of `output`: the next scope in key order is deduplicated. */
  lemma DedupStep(orig: CallGraph, cg: CallGraph, i: nat)
    requires DedupedUpTo(orig, cg, i) && i < |orig.keys|
    ensures orig.keys[i] in cg.items
    ensures DedupedUpTo(orig, cg.Put(orig.keys[i], Dedup(cg.items[orig.keys[i]])), i + 1)
  {
    var k := orig.keys[i];
    assert k !in orig.keys[..i];
    assert orig.keys[..i + 1] == orig.keys[..i] + [k];
  }

  /** When every scope has been deduplicated, the call graph is `DedupAll` of the original. */
  lemma DedupDone(orig: CallGraph, cg: CallGraph)
    requires DedupedUpTo(orig, cg, |orig.keys|)
    ensures cg == DedupAll(orig)
  {
    assert orig.keys[..|orig.keys|] == orig.keys;
    assert cg.items == DedupAll(orig).items;
  }

  class Lus4nVisitor {
    const source: string
    var stack: seq<string>
    var callGraph: CallGraph
    var require: seq<string>

    function State(): VisitState
      reads this
    {
      VisitState(stack, callGraph, require)
    }

    constructor (source: string)
      ensures this.source == source && State() == VisitState([], Empty(), [])
    {
      this.source := source;
      stack := [];
      callGraph := Empty();
      require := [];
    }

    /** The bookkeeping the visitor does at a `Call` node, before visiting its children. */
    method RecordCall(func: Node, args: seq<Node>)
      modifies this
      ensures State() == Note(source, old(State()), func, args)
    {
      ghost var site := SiteAt(source, stack, func, args);
      ghost var before := State();
      var fromWhere := if |stack| > 0 then stack[|stack| - 1] else GLOBAL_TAG;
      callGraph := NoteCallee(source, callGraph, fromWhere, func);
      match func {
        case Name(id) =>
          if id == "require" && |args| > 0 && args[0].String? {
            require := require + [args[0].s];
          }
        case _ =>
      }
      assert require == before.require + if site.required.Some? then [site.required.value] else [];
    }

    /** The call-graph half of `RecordCall`: the scope gets its entry, and the resolved callee is appended. */
    static method NoteCallee(source: string, cg: CallGraph, fromWhere: string, func: Node) returns (r: CallGraph)
      ensures r == RecordSite(cg, CallSite(fromWhere, CalleeOf(source, func), None))
    {
      r := cg;
      if fromWhere !in r.items {
        r := r.Put(fromWhere, []);
      }
      match func {
        case Index(_, _, start, stop) =>
          if stop.Some? {
            var called := Slice(source, if start.Some? then start.value else 0, stop.value + 1);
            r := Append(r, fromWhere, called);
          }
        case Name(id) =>
          r := Append(r, fromWhere, id);
        case _ =>
      }
    }

    /**
     * `visit` on one node: it succeeds exactly when the walk does, and then
     * leaves the state the walk ends in, with the scope stack back where it was.
     */
    method Visit(n: Node) returns (ok: bool)
      modifies this
      decreases n, 1
      ensures ok <==> Walk(source, n, old(State())).Some?
      ensures ok ==> State() == Walk(source, n, old(State())).value
    {
      match n {
        case Name(_) =>
          ok := true;
        case String(_) =>
          ok := true;
        case Index(idx, value, _, _) =>
          ok := Visit(idx);
          if ok {
            ok := Visit(value);
          }
        case Call(func, args) =>
          RecordCall(func, args);
          ok := Visit(func);
          if ok {
            ok := VisitSeq(args);
          }
        case Function(name, params, body) =>
          ok := VisitScope(n, true, name, params, body);
        case LocalFunction(name, params, body) =>
          ok := VisitScope(n, false, name, params, body);
        case Other(children) =>
          ok := VisitSeq(children);
      }
    }

    /** Entering a function definition: push its tag, visit its parts, pop the tag. */
    method VisitScope(ghost n: Node, exported: bool, name: Node, params: seq<Node>, body: seq<Node>) returns (ok: bool)
      requires exported ==> n == Function(name, params, body)
      requires !exported ==> n == LocalFunction(name, params, body)
      modifies this
      decreases n, 0
      ensures ok <==> Walk(source, n, old(State())).Some?
      ensures ok ==> State() == Walk(source, n, old(State())).value
    {
      var parts := WalkFuncName(name);
      if parts.None? {
        return false;
      }
      stack := stack + [ScopeTag(exported, parts.value)];
      ok := Visit(name);
      if ok {
        ok := VisitSeq(params);
        if ok {
          ok := VisitSeq(body);
          if ok {
            stack := stack[..|stack| - 1];
          }
        }
      }
    }

    /** `visit` on a list: its elements left to right, stopping at the first failure. */
    method VisitSeq(cs: seq<Node>) returns (ok: bool)
      modifies this
      decreases cs
      ensures ok <==> WalkSeq(source, cs, old(State())).Some?
      ensures ok ==> State() == WalkSeq(source, cs, old(State())).value
    {
      var i := 0;
      while i < |cs|
        invariant 0 <= i <= |cs|
        invariant WalkSeq(source, cs[..i], old(State())) == Some(State())
      {
        WalkSeqSnoc(source, cs, i, old(State()));
        ok := Visit(cs[i]);
        if !ok {
          WalkSeqPrefixFails(source, cs, i + 1, old(State()));
          return;
        }
        i := i + 1;
      }
      assert cs[..i] == cs;
      ok := true;
    }

    /** `output`: each scope's callee list made duplicate-free in place; the results are handed back. */
    method Output() returns (cg: CallGraph, req: seq<string>)
      requires callGraph.Valid()
      modifies this
      ensures callGraph == DedupAll(old(callGraph))
      ensures stack == old(stack) && require == old(require)
      ensures cg == callGraph && req == require
    {
      ghost var orig := callGraph;
      var keys := callGraph.keys;
      var i := 0;
      while i < |keys|
        invariant 0 <= i <= |keys|
        invariant stack == old(stack) && require == old(require)
        invariant DedupedUpTo(orig, callGraph, i)
      {
        DedupStep(orig, callGraph, i);
        callGraph := callGraph.Put(keys[i], Dedup(callGraph.items[keys[i]]));
        i := i + 1;
      }
      DedupDone(orig, callGraph);
      cg, req := callGraph, require;
    }
  }
}
