/**
 * The query side of the call network, lus4n/ui/graph_analyzer.py: ancestors
 * of a function, node filters and the in-degree ranking of function entries.
 * Every query raises ValueError when no graph is loaded, which networkx's
 * truth test also says of a loaded graph without nodes.
 */
module Analyzer {
  import opened Wrappers
  import opened Seqs
  import opened PyDict
  import opened Network
  import opened Sorting

  /**
   * The exceptions the analyzer raises: FileNotFoundError for a missing
   * storage file, whatever the loader raises on a file it cannot read, the
   * two ValueErrors, and the error a lookup of a name that is not a node
   * raises (a KeyError from `graph.nodes[n]`, a TypeError from adding the
   * two degree views networkx returns for a non-node).
   */
  datatype AnalyzerError =
    | MissingStorage(path: string)
    | LoadFailed(message: string)
    | NotLoaded
    | UnknownFunction(name: string)
    | NodeMissing

  /** `bool(graph)`: a graph is there and has a node. */
  predicate Loaded(graph: Option<Graph>) {
    graph.Some? && graph.value.nodes.keys != []
  }

  predicate InGraph(g: Graph, nodes: set<string>) {
    forall n :: n in nodes ==> HasNode(g, n)
  }

  /** The larger of two integers. */
  function Max(a: int, b: int): (m: int)
    ensures m >= a && m >= b && (m == a || m == b)
  {
    if a >= b then a else b
  }

  /** The nodes of `nodes` outside `important`, by non-increasing degree. */
  function ImportanceOrder(g: Graph, nodes: seq<string>, important: set<string>): (order: seq<string>)
    ensures SortedDesc(order, n => Degree(g, n))
    ensures forall n :: n in order <==> n in nodes && n !in important
    ensures Distinct(nodes) ==> Distinct(order)
  {
    var others := Filter(nodes, n => n !in important);
    var order := SortDesc(others, n => Degree(g, n));
    assert forall n :: n in order <==> n in multiset(others);
    if Distinct(nodes) then
      FilterDistinct(nodes, n => n !in important);
      PermutationDistinct(others, order);
      order
    else order
  }

  lemma PermutationDistinct<T>(a: seq<T>, b: seq<T>)
    requires Distinct(a) && multiset(a) == multiset(b)
    ensures Distinct(b)
  {
    forall x ensures Count(b, x) <= 1 {
      CountMultiplicity(a, x);
      CountMultiplicity(b, x);
      CountDistinct(a, x);
    }
    forall i, j | 0 <= i < j < |b| ensures b[i] != b[j] {
      if b[i] == b[j] {
        TwoIndicesCount(b, i, j);
        assert false;
      }
    }
  }

  lemma {:induction false} CountMultiplicity<T>(s: seq<T>, x: T)
    ensures Count(s, x) == multiset(s)[x]
  {
    if |s| > 0 {
      assert s == s[..|s| - 1] + [s[|s| - 1]];
      CountMultiplicity(s[..|s| - 1], x);
      CountAppend(s[..|s| - 1], [s[|s| - 1]], x);
      CountSingle(s[|s| - 1], x);
    }
  }

  lemma TwoIndicesCount<T>(s: seq<T>, i: nat, j: nat)
    requires i < j < |s| && s[i] == s[j]
    ensures Count(s, s[i]) >= 2
  {
    var x := s[i];
    assert s == s[..j] + s[j..];
    CountAppend(s[..j], s[j..], x);
    assert s[..j][i] == x;
    CountZero(s[..j], x);
    assert s[j..][0] == x;
    CountZero(s[j..], x);
  }

  /**
   * `filter_nodes_by_importance` as written: when there are too many nodes,
   * keep the important ones and then `max_nodes - len(important)` of the
   * others by degree, a count Python reads from the end when it is negative.
   */
  function ImportanceFilterAsWritten(g: Graph, nodes: seq<string>, maxNodes: int, important: set<string>): set<string> {
    if |nodes| <= maxNodes then Elements(nodes)
    else important + Elements(PrefixTo(ImportanceOrder(g, nodes, important), maxNodes - |important|))
  }

  /**
   * When the important nodes fit the budget, the filter as written keeps the
   * important nodes and at most the rest of the budget of the others, so it
   * never keeps more than `max_nodes` nodes, and it keeps the others of
   * higher degree before those of lower degree.
   */
  lemma ImportanceFilterAsWrittenTrims(g: Graph, nodes: seq<string>, maxNodes: int, important: set<string>)
    requires Distinct(nodes) && |nodes| > maxNodes
    ensures var r := ImportanceFilterAsWritten(g, nodes, maxNodes, important);
            && important <= r
            && (|important| <= maxNodes ==> |r| <= maxNodes)
            && forall x, y :: x in r && x !in important && y in nodes && y !in r ==> Degree(g, x) >= Degree(g, y)
  {
    var r := ImportanceFilterAsWritten(g, nodes, maxNodes, important);
    if |important| <= maxNodes {
      var kept := PrefixTo(ImportanceOrder(g, nodes, important), maxNodes - |important|);
      ElementsCardLe(kept);
      assert |r| <= |important| + |Elements(kept)|;
    }
    forall x, y | x in r && x !in important && y in nodes && y !in r
      ensures Degree(g, x) >= Degree(g, y)
    {
      ImportanceFilterAsWrittenDominates(g, nodes, maxNodes, important, x, y);
    }
  }

  /** One pair of the degree ordering above. */
  lemma ImportanceFilterAsWrittenDominates(g: Graph, nodes: seq<string>, maxNodes: int, important: set<string>, x: string, y: string)
    requires |nodes| > maxNodes
    requires var r := ImportanceFilterAsWritten(g, nodes, maxNodes, important);
             x in r && x !in important && y in nodes && y !in r
    ensures Degree(g, x) >= Degree(g, y)
  {
    var order := ImportanceOrder(g, nodes, important);
    var k := maxNodes - |important|;
    var n := if k >= 0 then (if k < |order| then k else |order|) else (if -k < |order| then |order| + k else 0);
    assert PrefixTo(order, k) == order[..n];
    PrefixDominates(order, n => Degree(g, n), n, x, y);
  }

  /** While the important nodes fit the budget, the filter as written and the corrected one agree. */
  lemma ImportanceFiltersAgree(g: Graph, nodes: seq<string>, maxNodes: int, important: set<string>)
    requires |important| <= maxNodes
    ensures ImportanceFilterAsWritten(g, nodes, maxNodes, important) == ImportanceFilter(g, nodes, maxNodes, important)
  {
    assert Max(maxNodes - |important|, 0) == maxNodes - |important|;
  }

  /** The same filter with no other node taken once the important ones fill the budget. */
  function ImportanceFilter(g: Graph, nodes: seq<string>, maxNodes: int, important: set<string>): (r: set<string>)
    ensures |nodes| <= maxNodes ==> r == Elements(nodes)
  {
    if |nodes| <= maxNodes then Elements(nodes)
    else important + Elements(PrefixTo(ImportanceOrder(g, nodes, important), Max(maxNodes - |important|, 0)))
  }

  /**
   * When it trims, the filter keeps every important node, keeps at most
   * `max_nodes` nodes unless the important ones alone are more, and keeps
   * other nodes of higher degree before those of lower degree.
   */
  lemma ImportanceFilterTrims(g: Graph, nodes: seq<string>, maxNodes: int, important: set<string>, x: string, y: string)
    requires Distinct(nodes) && |nodes| > maxNodes
    ensures var r := ImportanceFilter(g, nodes, maxNodes, important);
            && important <= r
            && |r| <= Max(maxNodes, |important|)
            && (x in r && x !in important && y in nodes && y !in r ==> Degree(g, x) >= Degree(g, y))
  {
    var order := ImportanceOrder(g, nodes, important);
    var k := Max(maxNodes - |important|, 0);
    var kept := PrefixTo(order, k);
    var r := important + Elements(kept);
    ElementsCardLe(kept);
    assert |r| <= |important| + |Elements(kept)|;
    if x in r && x !in important && y in nodes && y !in r {
      var n := if k < |order| then k else |order|;
      assert kept == order[..n];
      PrefixDominates(order, n => Degree(g, n), n, x, y);
    }
  }

  /**
   * As written, more important nodes than the budget let other nodes in: the
   * slice count is negative, so all but the last few of the other nodes are
   * kept, and the result outgrows both the budget and the important set
   * whenever there are more other nodes than the overshoot.
   */
  lemma ImportanceFilterAsWrittenOverflows(g: Graph, nodes: seq<string>, maxNodes: int, important: set<string>)
    requires Distinct(nodes) && |nodes| > maxNodes && |important| > maxNodes
    requires |Elements(nodes) - important| > |important| - maxNodes
    ensures |ImportanceFilterAsWritten(g, nodes, maxNodes, important)| == maxNodes + |Elements(nodes) - important|
    ensures |ImportanceFilterAsWritten(g, nodes, maxNodes, important)| > Max(maxNodes, |important|)
  {
    var order := ImportanceOrder(g, nodes, important);
    assert Elements(order) == Elements(nodes) - important;
    DistinctCard(order);
    var n := |order| + (maxNodes - |important|);
    var kept := PrefixTo(order, maxNodes - |important|);
    assert kept == order[..n];
    assert Distinct(kept);
    DistinctCard(kept);
    assert Elements(kept) !! important;
    assert |important + Elements(kept)| == |important| + |Elements(kept)|;
  }

  /** Four distinct one-letter names. */
  lemma SampleNames()
    ensures Distinct(["a", "b", "c", "d"])
    ensures Elements(["a", "b", "c", "d"]) - {"a", "b"} == {"c", "d"}
    ensures |{"a", "b"}| == 2 && |{"c", "d"}| == 2
  {
    var s := ["a", "b", "c", "d"];
    forall i, j | 0 <= i < j < |s| ensures s[i] != s[j] {
      assert s[i][0] != s[j][0];
    }
    assert "a"[0] != "b"[0] && "c"[0] != "d"[0];
    assert "a"[0] != "c"[0] && "a"[0] != "d"[0] && "b"[0] != "c"[0] && "b"[0] != "d"[0];
  }

  /** Nodes a, b, c, d with a and b important and a budget of one: three nodes are kept as written, two when corrected. */
  lemma ImportanceFilterSample(g: Graph)
    ensures |ImportanceFilterAsWritten(g, ["a", "b", "c", "d"], 1, {"a", "b"})| == 3
    ensures ImportanceFilter(g, ["a", "b", "c", "d"], 1, {"a", "b"}) == {"a", "b"}
  {
    SampleNames();
    ImportanceFilterAsWrittenOverflows(g, ["a", "b", "c", "d"], 1, {"a", "b"});
    assert PrefixTo(ImportanceOrder(g, ["a", "b", "c", "d"], {"a", "b"}), 0) == [];
  }

  /**
   * The loop `separate_nodes_by_type` and the query tab's `query_function`
   * both run: a node whose role is "file" goes to the file list, any other
   * node to the function list, each list in input order.
   */
  method SplitByRole(g: Graph, nodes: seq<string>) returns (functionNodes: seq<string>, fileNodes: seq<string>)
    ensures functionNodes == Filter(nodes, n => !IsFile(g, n))
    ensures fileNodes == Filter(nodes, n => IsFile(g, n))
    ensures |functionNodes| + |fileNodes| == |nodes|
  {
    fileNodes := [];
    functionNodes := [];
    var i := 0;
    while i < |nodes|
      invariant 0 <= i <= |nodes|
      invariant functionNodes == Filter(nodes[..i], n => !IsFile(g, n))
      invariant fileNodes == Filter(nodes[..i], n => IsFile(g, n))
      invariant |functionNodes| + |fileNodes| == i
    {
      FilterStep(nodes, n => !IsFile(g, n), i);
      FilterStep(nodes, n => IsFile(g, n), i);
      if IsFile(g, nodes[i]) {
        fileNodes := fileNodes + [nodes[i]];
      } else {
        functionNodes := functionNodes + [nodes[i]];
      }
      i := i + 1;
    }
    assert nodes[..i] == nodes;
  }

  /**
   * The in-degree ranking that `get_all_function_entries` and the query
   * tab's `list_all_function_entries` both compute: walk the nodes in graph
   * order, skip file nodes and nodes nothing points to, then sort by
   * in-degree, largest first.
   */
  method RankFunctionEntries(g: Graph) returns (ranked: seq<(string, nat)>)
    requires Valid(g)
    ensures SortedDesc(ranked, (e: (string, nat)) => e.1)
    ensures forall n, d :: (n, d) in ranked <==>
              HasNode(g, n) && !IsFile(g, n) && InDegree(g, n) > 0 && d == InDegree(g, n)
    ensures forall i, j :: 0 <= i < j < |ranked| ==> ranked[i].0 != ranked[j].0
  {
    var entries := CollectFunctionEntries(g);
    ranked := SortDesc(entries, (e: (string, nat)) => e.1);
    assert forall e :: e in ranked <==> e in multiset(entries);
    RankedNamesDistinct(g, entries, ranked);
  }

  /** The loop of the ranking: the non-file nodes with callers, in graph order, with their in-degrees. */
  method CollectFunctionEntries(g: Graph) returns (entries: seq<(string, nat)>)
    requires Valid(g)
    ensures forall n, d :: (n, d) in entries <==>
              HasNode(g, n) && !IsFile(g, n) && InDegree(g, n) > 0 && d == InDegree(g, n)
    ensures Distinct(entries)
  {
    var keys := g.nodes.keys;
    entries := [];
    var i := 0;
    while i < |keys|
      invariant 0 <= i <= |keys|
      invariant forall n, d :: (n, d) in entries <==>
                  n in keys[..i] && !IsFile(g, n) && InDegree(g, n) > 0 && d == InDegree(g, n)
      invariant Distinct(entries)
    {
      var node := keys[i];
      assert keys[..i + 1] == keys[..i] + [node];
      if !IsFile(g, node) {
        var inDegree := InDegree(g, node);
        if inDegree > 0 {
          assert node !in keys[..i];
          AppendFresh(entries, (node, inDegree));
          entries := entries + [(node, inDegree)];
        }
      }
      i := i + 1;
    }
    assert keys[..i] == keys;
  }

  /** Sorting a list of distinct entries, one per node, leaves one entry per node. */
  lemma RankedNamesDistinct(g: Graph, entries: seq<(string, nat)>, ranked: seq<(string, nat)>)
    requires Distinct(entries) && multiset(ranked) == multiset(entries)
    requires forall n, d :: (n, d) in entries ==> d == InDegree(g, n)
    ensures forall i, j :: 0 <= i < j < |ranked| ==> ranked[i].0 != ranked[j].0
  {
    PermutationDistinct(entries, ranked);
    forall a, b | 0 <= a < b < |ranked| ensures ranked[a].0 != ranked[b].0 {
      assert ranked[a] in multiset(entries) && ranked[b] in multiset(entries);
    }
  }

  lemma AppendFresh<T>(s: seq<T>, x: T)
    requires Distinct(s) && x !in s
    ensures Distinct(s + [x])
  {
  }

  class GraphAnalyzer {
    var graph: Option<Graph>
    var storagePath: Option<string>

    /** A loaded graph is well formed. */
    ghost predicate Valid()
      reads this
    {
      graph.Some? ==> Network.Valid(graph.value)
    }

    constructor ()
      ensures Valid() && graph == None && storagePath == None
    {
      graph := None;
      storagePath := None;
    }

    /**
     * `load_graph`: `stored` is None when the storage file does not exist,
     * and otherwise what loading it gives, the graph or the loader's error.
     * The path is recorded before the file is loaded.
     */
    method LoadGraph(path: string, stored: Option<Result<Graph, string>>) returns (r: Result<Graph, AnalyzerError>)
      requires stored.Some? && stored.value.Ok? ==> Network.Valid(stored.value.value)
      requires Valid()
      modifies this
      ensures Valid()
      ensures stored.None? ==> r == Err(MissingStorage(path)) && graph == old(graph) && storagePath == old(storagePath)
      ensures stored.Some? && stored.value.Err? ==>
                r == Err(LoadFailed(stored.value.error)) && graph == old(graph) && storagePath == Some(path)
      ensures stored.Some? && stored.value.Ok? ==>
                r == Ok(stored.value.value) && graph == Some(stored.value.value) && storagePath == Some(path)
    {
      if stored.None? {
        return Err(MissingStorage(path));
      }
      storagePath := Some(path);
      if stored.value.Err? {
        return Err(LoadFailed(stored.value.error));
      }
      graph := Some(stored.value.value);
      r := Ok(stored.value.value);
    }

    /** `get_function_ancestors`: the function and every node with a path to it. */
    function GetFunctionAncestors(f: string): (r: Result<set<string>, AnalyzerError>)
      requires Valid()
      reads this
      ensures !Loaded(graph) ==> r == Err(NotLoaded)
      ensures Loaded(graph) && !HasNode(graph.value, f) ==> r == Err(UnknownFunction(f))
      ensures Loaded(graph) && HasNode(graph.value, f) ==>
                r.Ok? && f in r.value && forall u :: u in r.value <==> Reaches(graph.value, u, f)
    {
      if !Loaded(graph) then Err(NotLoaded)
      else if !HasNode(graph.value, f) then Err(UnknownFunction(f))
      else
        ClosureIsReachability(graph.value, f);
        Ok(Closure(graph.value, {f}))
    }

    /**
     * `filter_nodes_by_type`: all of `nodes`, or only those that are not
     * files; hiding files looks every node up, so a name outside the graph
     * raises.
     */
    function FilterNodesByType(nodes: set<string>, showFiles: bool): (r: Result<set<string>, AnalyzerError>)
      reads this
      ensures !Loaded(graph) ==> r == Err(NotLoaded)
      ensures Loaded(graph) && !showFiles && !InGraph(graph.value, nodes) ==> r == Err(NodeMissing)
      ensures r.Ok? <==> Loaded(graph) && (showFiles || InGraph(graph.value, nodes))
      ensures r.Ok? && showFiles ==> r.value == nodes
      ensures r.Ok? && !showFiles ==> forall n :: n in r.value <==> n in nodes && !IsFile(graph.value, n)
    {
      if !Loaded(graph) then Err(NotLoaded)
      else if !showFiles then
        if InGraph(graph.value, nodes) then Ok(set n | n in nodes && !IsFile(graph.value, n))
        else Err(NodeMissing)
      else Ok(nodes)
    }

    /**
     * `filter_nodes_by_importance`, on the nodes in their set iteration
     * order. Trimming looks up the degree of every node outside `important`,
     * so a name outside the graph among them raises.
     */
    function FilterNodesByImportance(nodes: seq<string>, maxNodes: int, important: set<string>): (r: Result<set<string>, AnalyzerError>)
      reads this
      requires Distinct(nodes)
      ensures !Loaded(graph) ==> r == Err(NotLoaded)
      ensures r.Ok? <==> Loaded(graph) && (|nodes| <= maxNodes || InGraph(graph.value, Elements(nodes) - important))
      ensures Loaded(graph) && r.Err? ==> r == Err(NodeMissing)
      ensures r.Ok? && |nodes| <= maxNodes ==> r.value == Elements(nodes)
      ensures r.Ok? && |nodes| > maxNodes ==> important <= r.value
      ensures r.Ok? && |important| <= maxNodes ==> |r.value| <= maxNodes
      ensures r.Ok? && |nodes| > maxNodes ==>
                forall x, y :: x in r.value && x !in important && y in nodes && y !in r.value ==>
                  Degree(graph.value, x) >= Degree(graph.value, y)
    {
      if !Loaded(graph) then Err(NotLoaded)
      else if |nodes| <= maxNodes then
        DistinctCard(nodes);
        Ok(Elements(nodes))
      else if !InGraph(graph.value, Elements(nodes) - important) then Err(NodeMissing)
      else
        ImportanceFilterAsWrittenTrims(graph.value, nodes, maxNodes, important);
        Ok(ImportanceFilterAsWritten(graph.value, nodes, maxNodes, important))
    }

    /**
     * `separate_nodes_by_type`: the non-file nodes and the file nodes, each
     * in input order; every node is looked up, so a name outside the graph
     * raises.
     */
    method SeparateNodesByType(nodes: seq<string>) returns (r: Result<(seq<string>, seq<string>), AnalyzerError>)
      ensures !Loaded(graph) ==> r == Err(NotLoaded)
      ensures Loaded(graph) && !InGraph(graph.value, Elements(nodes)) ==> r == Err(NodeMissing)
      ensures r.Ok? <==> Loaded(graph) && InGraph(graph.value, Elements(nodes))
      ensures r.Ok? ==>
                var (functionNodes, fileNodes) := r.value;
                var g := graph.value;
                && functionNodes == Filter(nodes, n => !IsFile(g, n))
                && fileNodes == Filter(nodes, n => IsFile(g, n))
                && |functionNodes| + |fileNodes| == |nodes|
    {
      if !Loaded(graph) {
        return Err(NotLoaded);
      }
      if exists i :: 0 <= i < |nodes| && !HasNode(graph.value, nodes[i]) {
        return Err(NodeMissing);
      }
      var functionNodes, fileNodes := SplitByRole(graph.value, nodes);
      r := Ok((functionNodes, fileNodes));
    }

    /**
     * `get_all_function_entries`: every non-file node that something points
     * to, with its in-degree, by non-increasing in-degree.
     */
    method GetAllFunctionEntries() returns (r: Result<seq<(string, nat)>, AnalyzerError>)
      requires Valid()
      ensures r.Ok? <==> Loaded(graph)
      ensures r.Ok? ==> SortedDesc(r.value, (e: (string, nat)) => e.1)
      ensures r.Ok? ==> forall n, d :: (n, d) in r.value <==>
                          HasNode(graph.value, n) && !IsFile(graph.value, n) && InDegree(graph.value, n) > 0 && d == InDegree(graph.value, n)
      ensures r.Ok? ==> forall i, j :: 0 <= i < j < |r.value| ==> r.value[i].0 != r.value[j].0
    {
      if !Loaded(graph) {
        return Err(NotLoaded);
      }
      var ranked := RankFunctionEntries(graph.value);
      r := Ok(ranked);
    }

    /** `get_all_nodes`. */
    function GetAllNodes(): (r: Result<set<string>, AnalyzerError>)
      reads this
      ensures r.Ok? <==> Loaded(graph)
      ensures r.Ok? ==> forall n :: n in r.value <==> HasNode(graph.value, n)
    {
      if !Loaded(graph) then Err(NotLoaded) else Ok(graph.value.nodes.items.Keys)
    }
  }
}
