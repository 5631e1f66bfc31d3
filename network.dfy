/**
 * The call network: the `networkx.DiGraph` the scanner builds, reduced to what
 * the scanner and the query side use. Nodes keep their insertion order and
 * carry one boolean, whether the node has the attribute role='file'; each
 * directed edge (u, v) carries its `action` attribute. Adding an edge that is
 * already present overwrites its action, and adding an edge adds its missing
 * endpoints as nodes without attributes.
 */
module Network {
  import opened Seqs
  import opened PyDict

  datatype Action = Define | Export | Call

  datatype Graph = Graph(nodes: Dict<string, bool>, edges: map<(string, string), Action>)

  /** Node order lists the nodes once, and every edge joins two nodes. */
  ghost predicate Valid(g: Graph) {
    && g.nodes.Valid()
    && (forall e :: e in g.edges ==> e.0 in g.nodes.items && e.1 in g.nodes.items)
  }

  function EmptyGraph(): (g: Graph)
    ensures Valid(g) && g.nodes.keys == [] && g.edges == map[]
  {
    Graph(Empty(), map[])
  }

  predicate HasNode(g: Graph, n: string) {
    n in g.nodes.items
  }

  /** The node exists and carries role='file'. */
  predicate IsFile(g: Graph, n: string) {
    n in g.nodes.items && g.nodes.items[n]
  }

  /** `g.add_node(n, role='file')`. */
  function AddFileNode(g: Graph, n: string): (h: Graph)
    ensures Valid(g) ==> Valid(h)
    ensures h.edges == g.edges
    ensures h.nodes.items == g.nodes.items[n := true]
    ensures HasNode(g, n) ==> h.nodes.keys == g.nodes.keys
    ensures !HasNode(g, n) ==> h.nodes.keys == g.nodes.keys + [n]
  {
    Graph(g.nodes.Put(n, true), g.edges)
  }

  /** `g.add_edge(u, v, action=a)`. */
  function AddEdge(g: Graph, u: string, v: string, a: Action): (h: Graph)
    ensures Valid(g) ==> Valid(h)
    ensures h.edges == g.edges[(u, v) := a]
    ensures h.nodes.items.Keys == g.nodes.items.Keys + {u, v}
    ensures forall n :: HasNode(g, n) ==> (IsFile(h, n) <==> IsFile(g, n))
    ensures forall n :: !HasNode(g, n) ==> !IsFile(h, n)
  {
    Graph(g.nodes.SetDefault(u, false).SetDefault(v, false), g.edges[(u, v) := a])
  }

  /** The nodes with an edge into `n`. */
  function Predecessors(g: Graph, n: string): set<string> {
    set e | e in g.edges && e.1 == n :: e.0
  }

  /** The nodes with an edge out of `n`. */
  function Successors(g: Graph, n: string): set<string> {
    set e | e in g.edges && e.0 == n :: e.1
  }

  /** `g.in_degree(n)` on a simple digraph. */
  function InDegree(g: Graph, n: string): nat {
    |Predecessors(g, n)|
  }

  /** `g.in_degree(n) + g.out_degree(n)`. */
  function Degree(g: Graph, n: string): nat {
    |Predecessors(g, n)| + |Successors(g, n)|
  }

  /** A non-empty walk along edges. */
  ghost predicate IsPath(g: Graph, p: seq<string>) {
    |p| >= 1 && forall i :: 0 <= i < |p| - 1 ==> (p[i], p[i + 1]) in g.edges
  }

  /** `u` reaches `v` along zero or more edges. */
  ghost predicate Reaches(g: Graph, u: string, v: string) {
    exists p :: IsPath(g, p) && p[0] == u && p[|p| - 1] == v
  }

  /** One backwards step: the nodes with an edge into some node of `s`. */
  function PredecessorsOf(g: Graph, s: set<string>): set<string> {
    set e | e in g.edges && e.1 in s :: e.0
  }

  lemma ProperSubsetSmaller(a: set<string>, b: set<string>)
    requires a < b
    ensures |a| < |b|
  {
    assert b - a != {};
    assert b == a + (b - a);
  }

  /**
   * Backwards closure: keep adding predecessors until nothing new appears.
   * This is what `networkx.ancestors` computes, plus the starting set.
   */
  function Closure(g: Graph, s: set<string>): (r: set<string>)
    requires Valid(g) && s <= g.nodes.items.Keys
    ensures s <= r <= g.nodes.items.Keys
    ensures PredecessorsOf(g, r) <= r
    decreases |g.nodes.items.Keys - s|
  {
    var next := s + PredecessorsOf(g, s);
    if next <= s then s
    else
      ProperSubsetSmaller(g.nodes.items.Keys - next, g.nodes.items.Keys - s);
      Closure(g, next)
  }

  /** Every node the closure adds reaches some node of the starting set; here, the single target. */
  lemma {:induction false} ClosureSound(g: Graph, s: set<string>, f: string)
    requires Valid(g) && s <= g.nodes.items.Keys
    requires forall u :: u in s ==> Reaches(g, u, f)
    ensures forall u :: u in Closure(g, s) ==> Reaches(g, u, f)
    decreases |g.nodes.items.Keys - s|
  {
    var next := s + PredecessorsOf(g, s);
    if !(next <= s) {
      forall u | u in next ensures Reaches(g, u, f) {
        if u !in s {
          var e :| e in g.edges && e.1 in s && e.0 == u;
          var p :| IsPath(g, p) && p[0] == e.1 && p[|p| - 1] == f;
          var q := [u] + p;
          assert IsPath(g, q);
          assert q[0] == u && q[|q| - 1] == f;
        }
      }
      ProperSubsetSmaller(g.nodes.items.Keys - next, g.nodes.items.Keys - s);
      ClosureSound(g, next, f);
    }
  }

  /** A set closed under predecessors holds every node of a path whose last node it holds. */
  lemma {:induction false} ClosedHoldsPath(g: Graph, r: set<string>, p: seq<string>, i: nat)
    requires IsPath(g, p) && p[|p| - 1] in r
    requires PredecessorsOf(g, r) <= r
    requires i < |p|
    ensures p[i] in r
    decreases |p| - i
  {
    if i < |p| - 1 {
      ClosedHoldsPath(g, r, p, i + 1);
      assert (p[i], p[i + 1]) in g.edges;
      assert p[i] in PredecessorsOf(g, r);
    }
  }

  /** The closure of {f} is exactly the set of nodes that reach f. */
  lemma ClosureIsReachability(g: Graph, f: string)
    requires Valid(g) && HasNode(g, f)
    ensures forall u :: u in Closure(g, {f}) <==> Reaches(g, u, f)
  {
    assert IsPath(g, [f]);
    ClosureSound(g, {f}, f);
    var r := Closure(g, {f});
    forall u | Reaches(g, u, f) ensures u in r {
      var p :| IsPath(g, p) && p[0] == u && p[|p| - 1] == f;
      ClosedHoldsPath(g, r, p, 0);
    }
  }
}
