/**
 * The syntax tree the extractor walks (lus4n/graph.py, class Lus4nVisitor),
 * reduced to the node kinds the extractor tells apart, and the call sites a
 * depth-first walk of a tree meets.
 *
 * The parser is foreign: a tree is an input. Children are listed in the order
 * the visitor reaches them, which is the order in which the parser's node
 * classes set their attributes: an `Index` visits its key before the value it
 * indexes, a `Call` its target before its arguments, a function definition its
 * name, then its parameters, then its body.
 */
module LuaAst {
  import opened Wrappers
  import opened Seqs
  import opened Text

  datatype Node =
    | Name(id: string)
    | Index(idx: Node, value: Node, startChar: Option<nat>, stopChar: Option<nat>)
    | Call(func: Node, args: seq<Node>)
    | Function(name: Node, params: seq<Node>, body: seq<Node>)
    | LocalFunction(name: Node, params: seq<Node>, body: seq<Node>)
    | String(s: string)
    | Other(children: seq<Node>)

  /** The scope of calls made outside every function. */
  const GLOBAL_TAG: string := "[G]"
  /** Prefix of the scope of a (non-local) function statement. */
  const EXPORTED_PREFIX: string := "[X]"
  /** Prefix of the scope of a `local function`. */
  const LOCAL_PREFIX: string := "[L]"

  /**
   * `walk_func_name`: the segments of a function name that is an identifier or
   * a chain of `.field` accesses on one. Any other shape makes the source raise
   * (a missing `.id`, or `None` where a list is expected): None here.
   */
  function WalkFuncName(n: Node): (r: Option<seq<string>>)
    ensures r.Some? ==> |r.value| >= 1
    ensures n.Name? ==> r == Some([n.id])
    ensures !(n.Name? || n.Index?) ==> r.None?
  {
    match n
    case Name(id) => Some([id])
    case Index(idx, value, _, _) =>
      (match WalkFuncName(value)
       case None => None
       case Some(parts) => if idx.Name? then Some(parts + [idx.id]) else None)
    case _ => None
  }

  /** The name expression `a.b.c` for the segments [a, b, c], as the parser builds it. */
  function DottedName(parts: seq<string>): (n: Node)
    requires |parts| >= 1
    ensures |parts| == 1 <==> n.Name?
  {
    if |parts| == 1 then Name(parts[0])
    else Index(Name(parts[|parts| - 1]), DottedName(parts[..|parts| - 1]), None, None)
  }

  /** Walking the name of a dotted function gives back its segments. */
  lemma {:induction false} WalkDottedName(parts: seq<string>)
    requires |parts| >= 1
    ensures WalkFuncName(DottedName(parts)) == Some(parts)
  {
    if |parts| > 1 {
      WalkDottedName(parts[..|parts| - 1]);
      assert parts[..|parts| - 1] + [parts[|parts| - 1]] == parts;
    } else {
      assert parts == [parts[0]];
    }
  }

  /** The tag pushed on entering a function definition. */
  function ScopeTag(exported: bool, parts: seq<string>): (tag: string)
    ensures exported ==> StartsWith(tag, EXPORTED_PREFIX) && tag[|EXPORTED_PREFIX|..] == JoinWith(parts, '.')
    ensures !exported ==> StartsWith(tag, LOCAL_PREFIX) && tag[|LOCAL_PREFIX|..] == JoinWith(parts, '.')
  {
    (if exported then EXPORTED_PREFIX else LOCAL_PREFIX) + JoinWith(parts, '.')
  }

  /** The scope a call is attributed to: the innermost enclosing function, or the global scope. */
  function Top(stack: seq<string>): (scope: string)
    ensures |stack| > 0 ==> scope == stack[|stack| - 1]
    ensures |stack| == 0 ==> scope == GLOBAL_TAG
  {
    if |stack| > 0 then stack[|stack| - 1] else GLOBAL_TAG
  }

  /**
   * The callee recorded for a call target. A dotted target gives the source
   * text from its first to its last character inclusive (Python slicing, so a
   * missing start offset counts from 0 and offsets past the end are clamped);
   * without an end offset the slice raises a TypeError that is swallowed, so
   * nothing is recorded. A plain name gives itself; other targets give nothing.
   */
  function CalleeOf(source: string, func: Node): (r: Option<string>)
    ensures r.Some? <==> func.Name? || (func.Index? && func.stopChar.Some?)
    ensures func.Name? ==> r == Some(func.id)
    ensures func.Index? && func.startChar.Some? && func.stopChar.Some? &&
            func.startChar.value <= func.stopChar.value < |source|
            ==> r == Some(source[func.startChar.value..func.stopChar.value + 1])
    ensures func.Index? && func.startChar.None? && func.stopChar.Some? && func.stopChar.value < |source|
            ==> r == Some(source[..func.stopChar.value + 1])
  {
    match func
    case Index(_, _, start, stop) =>
      if stop.None? then None
      else Some(Slice(source, if start.Some? then start.value else 0, stop.value + 1))
    case Name(id) => Some(id)
    case _ => None
  }

  /** A call `require(s, ...)` whose target is the plain name and whose first argument is a string literal. */
  function RequiredOf(func: Node, args: seq<Node>): (r: Option<string>)
    ensures r.Some? <==> func == Name("require") && |args| > 0 && args[0].String?
    ensures r.Some? ==> r.value == args[0].s
  {
    if func.Name? && func.id == "require" && |args| > 0 && args[0].String? then Some(args[0].s) else None
  }

  /** What the visitor notes at one `Call` node. */
  datatype CallSite = CallSite(scope: string, callee: Option<string>, required: Option<string>)

  /** The site of a call with target `func` and arguments `args` met under `stack`. */
  function SiteAt(source: string, stack: seq<string>, func: Node, args: seq<Node>): (site: CallSite)
    ensures site.scope == Top(stack)
    ensures site.callee == CalleeOf(source, func) && site.required == RequiredOf(func, args)
  {
    CallSite(Top(stack), CalleeOf(source, func), RequiredOf(func, args))
  }

  /** Both walks succeed, and their sites in order; any failure fails the whole walk. */
  function Cat(a: Option<seq<CallSite>>, b: Option<seq<CallSite>>): (r: Option<seq<CallSite>>)
    ensures r.Some? <==> a.Some? && b.Some?
    ensures r.Some? ==> r.value == a.value + b.value
  {
    if a.Some? && b.Some? then Some(a.value + b.value) else None
  }

  /**
   * The call sites of a depth-first walk of `n` under the scope stack `stack`,
   * in the order the walk meets them; None when some function name in `n`
   * cannot be walked, which aborts the walk of the whole file.
   */
  function Sites(source: string, n: Node, stack: seq<string>): Option<seq<CallSite>>
    decreases n, 1
  {
    match n
    case Name(_) => Some([])
    case String(_) => Some([])
    case Index(idx, value, _, _) => Cat(Sites(source, idx, stack), Sites(source, value, stack))
    case Call(func, args) =>
      Cat(Some([SiteAt(source, stack, func, args)]),
          Cat(Sites(source, func, stack), SitesSeq(source, args, stack)))
    case Function(name, _, _) =>
      var parts :- WalkFuncName(name);
      ScopeSites(source, n, stack + [ScopeTag(true, parts)])
    case LocalFunction(name, _, _) =>
      var parts :- WalkFuncName(name);
      ScopeSites(source, n, stack + [ScopeTag(false, parts)])
    case Other(children) => SitesSeq(source, children, stack)
  }

  /** The call sites of a function definition's name, parameters and body, under its own scope. */
  function ScopeSites(source: string, n: Node, stack: seq<string>): Option<seq<CallSite>>
    requires n.Function? || n.LocalFunction?
    decreases n, 0
  {
    Cat(Sites(source, n.name, stack), Cat(SitesSeq(source, n.params, stack), SitesSeq(source, n.body, stack)))
  }

  /** The call sites of the nodes of `cs`, walked left to right. */
  function SitesSeq(source: string, cs: seq<Node>, stack: seq<string>): Option<seq<CallSite>>
    decreases cs
  {
    if |cs| == 0 then Some([])
    else Cat(SitesSeq(source, cs[..|cs| - 1], stack), Sites(source, cs[|cs| - 1], stack))
  }

  /** One more node on the right extends the walk of a list by that node's walk. */
  lemma SitesSeqSnoc(source: string, cs: seq<Node>, i: nat, stack: seq<string>)
    requires i < |cs|
    ensures SitesSeq(source, cs[..i + 1], stack) == Cat(SitesSeq(source, cs[..i], stack), Sites(source, cs[i], stack))
  {
    assert cs[..i + 1][..i] == cs[..i];
  }

  /** A walk that fails on a prefix of a list fails on the whole list. */
  lemma {:induction false} SitesSeqPrefixFails(source: string, cs: seq<Node>, k: nat, stack: seq<string>)
    requires k <= |cs|
    requires SitesSeq(source, cs[..k], stack).None?
    ensures SitesSeq(source, cs, stack).None?
    decreases |cs|
  {
    if k < |cs| {
      assert cs[..|cs| - 1][..k] == cs[..k];
      SitesSeqPrefixFails(source, cs[..|cs| - 1], k, stack);
    } else {
      assert cs[..k] == cs;
    }
  }

  /** The sites of a list are the sites of its elements, one after the other. */
  lemma {:induction false} SitesSeqMember(source: string, cs: seq<Node>, stack: seq<string>, i: nat)
    requires i < |cs|
    requires SitesSeq(source, cs, stack).Some?
    ensures Sites(source, cs[i], stack).Some?
    ensures forall s :: s in Sites(source, cs[i], stack).value ==> s in SitesSeq(source, cs, stack).value
  {
    if i < |cs| - 1 {
      SitesSeqMember(source, cs[..|cs| - 1], stack, i);
    }
  }

  /** Every tag on a scope stack is a function tag. */
  predicate FunctionTags(stack: seq<string>) {
    forall i :: 0 <= i < |stack| ==> StartsWith(stack[i], EXPORTED_PREFIX) || StartsWith(stack[i], LOCAL_PREFIX)
  }

  /** A scope the linker knows how to handle. */
  predicate KnownScope(scope: string) {
    scope == GLOBAL_TAG || StartsWith(scope, EXPORTED_PREFIX) || StartsWith(scope, LOCAL_PREFIX)
  }

  /**
   * Every call is attributed to the global scope or to a function scope: the
   * walk starts with an empty stack and pushes only function tags.
   */
  lemma {:induction false} SiteScopesKnown(source: string, n: Node, stack: seq<string>)
    requires FunctionTags(stack)
    requires Sites(source, n, stack).Some?
    ensures forall s :: s in Sites(source, n, stack).value ==> KnownScope(s.scope)
    decreases n
  {
    match n
    case Name(_) =>
    case String(_) =>
    case Index(idx, value, _, _) =>
      SiteScopesKnown(source, idx, stack);
      SiteScopesKnown(source, value, stack);
    case Call(func, args) =>
      SiteScopesKnown(source, func, stack);
      SeqScopesKnown(source, args, stack);
    case Function(name, params, body) =>
      var parts := WalkFuncName(name).value;
      var inner := stack + [ScopeTag(true, parts)];
      SiteScopesKnown(source, name, inner);
      SeqScopesKnown(source, params, inner);
      SeqScopesKnown(source, body, inner);
    case LocalFunction(name, params, body) =>
      var parts := WalkFuncName(name).value;
      var inner := stack + [ScopeTag(false, parts)];
      SiteScopesKnown(source, name, inner);
      SeqScopesKnown(source, params, inner);
      SeqScopesKnown(source, body, inner);
    case Other(children) =>
      SeqScopesKnown(source, children, stack);
  }

  lemma {:induction false} SeqScopesKnown(source: string, cs: seq<Node>, stack: seq<string>)
    requires FunctionTags(stack)
    requires SitesSeq(source, cs, stack).Some?
    ensures forall s :: s in SitesSeq(source, cs, stack).value ==> KnownScope(s.scope)
    decreases cs
  {
    if |cs| > 0 {
      SeqScopesKnown(source, cs[..|cs| - 1], stack);
      SiteScopesKnown(source, cs[|cs| - 1], stack);
    }
  }

  /** A function definition whose name cannot be walked fails the walk of any list holding it. */
  lemma BadFunctionNameFails(source: string, cs: seq<Node>, i: nat, stack: seq<string>)
    requires i < |cs| && (cs[i].Function? || cs[i].LocalFunction?)
    requires WalkFuncName(cs[i].name).None?
    ensures SitesSeq(source, cs, stack).None?
  {
    SitesSeqSnoc(source, cs, i, stack);
    SitesSeqPrefixFails(source, cs, i + 1, stack);
  }
}
