/**
 * The query tab of the newer front end, lus4n/ui/query_tab.py: it looks up a
 * function in a stored call network, lists the files and functions that lead
 * to it, ranks all function entries by how often they are called, and keeps
 * the recent-query combo box.
 */
module QueryTab {
  import opened Wrappers
  import opened Seqs
  import opened Text
  import opened Network
  import opened Sorting
  import opened Recent
  import opened Analyzer

  // ---------------------------------------------------------------------------
  // Messages

  const NOT_FOUND: string := "未找到节点："
  const QUERY_ERROR: string := "查询出错："
  const QUERY_FAILED: string := "查询出错"
  const ANALYZING: string := "正在分析所有函数入口..."
  const ANALYSIS_FAILED: string := "分析出错"
  const FUNCTIONS_HEADING: string := "\n--- 相关函数 ---"
  const FILES_HEADING: string := "\n--- 相关文件 ---"

  function QueryingMessage(query: string): string {
    "正在查询 " + query + "..."
  }

  function ShownMessage(query: string): string {
    "已显示 " + query + " 的调用关系"
  }

  function EntriesFoundMessage(n: nat): string {
    "发现 " + NatToString(n) + " 个函数入口"
  }

  // ---------------------------------------------------------------------------
  // Ancestors of the queried node

  /** `nx.ancestors(g, query)`: every other node with a path to the query. */
  function Ancestors(g: Graph, query: string): (nodes: set<string>)
    requires Valid(g) && HasNode(g, query)
    ensures forall u :: u in nodes <==> u != query && Reaches(g, u, query)
    ensures forall u :: u in nodes ==> HasNode(g, u)
  {
    ClosureIsReachability(g, query);
    Closure(g, {query}) - {query}
  }

  /** The ancestors in the order iterating over the set gives, taken here as the order the nodes were added. */
  function AncestorOrder(g: Graph, query: string): (order: seq<string>)
    requires Valid(g) && HasNode(g, query)
    ensures Distinct(order)
    ensures forall u :: u in order <==> u in Ancestors(g, query)
  {
    var nodes := Ancestors(g, query);
    FilterDistinct(g.nodes.keys, n => n in nodes);
    Filter(g.nodes.keys, n => n in nodes)
  }

  /**
   * The ancestors split by role: the function list and the file list are
   * disjoint, together hold every ancestor once, and the file list holds
   * exactly the ancestors whose role is "file".
   */
  lemma AncestorPartition(g: Graph, query: string)
    requires Valid(g) && HasNode(g, query)
    ensures var order := AncestorOrder(g, query);
            var functionNodes := Filter(order, n => !IsFile(g, n));
            var fileNodes := Filter(order, n => IsFile(g, n));
            && (forall u :: u in fileNodes <==> u in Ancestors(g, query) && IsFile(g, u))
            && (forall u :: u in functionNodes <==> u in Ancestors(g, query) && !IsFile(g, u))
            && Distinct(functionNodes) && Distinct(fileNodes)
            && |functionNodes| + |fileNodes| == |Ancestors(g, query)|
  {
    var order := AncestorOrder(g, query);
    FilterDistinct(order, n => !IsFile(g, n));
    FilterDistinct(order, n => IsFile(g, n));
    AncestorCount(g, query);
  }

  /** The two lists together are as long as the ancestor set is large. */
  lemma AncestorCount(g: Graph, query: string)
    requires Valid(g) && HasNode(g, query)
    ensures var order := AncestorOrder(g, query);
            |Filter(order, n => !IsFile(g, n))| + |Filter(order, n => IsFile(g, n))| == |Ancestors(g, query)|
  {
    var order := AncestorOrder(g, query);
    FilterSizes(order, n => IsFile(g, n), n => !IsFile(g, n));
    DistinctCard(order);
    assert Elements(order) == Ancestors(g, query);
  }

  /** Filtering by a predicate and by its negation splits a sequence between the two results. */
  lemma {:induction false} FilterSizes(s: seq<string>, p: string -> bool, notP: string -> bool)
    requires forall x :: notP(x) == !p(x)
    ensures |Filter(s, notP)| + |Filter(s, p)| == |s|
  {
    if |s| > 0 {
      var i := |s| - 1;
      FilterSizes(s[..i], p, notP);
      FilterStep(s, notP, i);
      FilterStep(s, p, i);
      assert s[..i + 1] == s;
      assert notP(s[i]) == !p(s[i]);
    }
  }

  /** The text the query writes: a header with the two counts, then the functions, then the files. */
  function Report(query: string, functionNodes: seq<string>, fileNodes: seq<string>): (lines: seq<string>)
    ensures |lines| == 5 + |functionNodes| + |fileNodes|
    ensures lines[4..4 + |functionNodes|] == functionNodes && lines[5 + |functionNodes|..] == fileNodes
  {
    ["查询函数：" + query,
     "相关函数数量：" + NatToString(|functionNodes|),
     "相关文件数量：" + NatToString(|fileNodes|),
     FUNCTIONS_HEADING]
    + functionNodes + [FILES_HEADING] + fileNodes
  }

  // ---------------------------------------------------------------------------
  // The function-entry table

  /** One table row per entry: the name and its count written in decimal. */
  function Rows(entries: seq<(string, nat)>): (rows: seq<(string, string)>)
    ensures |rows| == |entries|
    ensures forall i :: 0 <= i < |rows| ==>
              rows[i].0 == entries[i].0 && DecimalValue(rows[i].1) == entries[i].1
  {
    forall i | 0 <= i < |entries| ensures DecimalValue(NatToString(entries[i].1)) == entries[i].1 {
      NatToStringRoundTrip(entries[i].1);
    }
    seq(|entries|, i requires 0 <= i < |entries| => (entries[i].0, NatToString(entries[i].1)))
  }

  /**
   * A list of entries is the function-entry ranking of a graph: the non-file
   * nodes with callers, each once with its in-degree, largest first.
   */
  ghost predicate IsRanking(g: Graph, ranked: seq<(string, nat)>) {
    && SortedDesc(ranked, (e: (string, nat)) => e.1)
    && (forall n, d :: (n, d) in ranked <==>
          HasNode(g, n) && !IsFile(g, n) && InDegree(g, n) > 0 && d == InDegree(g, n))
    && (forall i, j :: 0 <= i < j < |ranked| ==> ranked[i].0 != ranked[j].0)
  }

  /** Which widget the result stack shows. */
  datatype View = TextView | TableView

  /** A query runs only with a storage path that exists and a non-empty query. */
  predicate Proceeds(storage: string, storageExists: bool, query: string) {
    storage != "" && storageExists && query != ""
  }

  class QueryTab {
    /** The storage path and query fields. */
    var queryStorageInput: string
    var functionInput: string
    /** The recent-query combo box. */
    const recent: RecentCombo
    /** The lines of the result text. */
    var resultText: seq<string>
    /** The cells of the result table, one (name, count) pair per row. */
    var resultTable: seq<(string, string)>
    var view: View
    /** The last message handed to the status callback. */
    var status: string
    /** The nodes of the subgraph last drawn. */
    var shown: Option<set<string>>

    constructor ()
      ensures fresh(recent) && recent.items == []
      ensures queryStorageInput == "" && functionInput == ""
      ensures resultText == [] && resultTable == [] && view == TextView && shown.None?
    {
      recent := new RecentCombo();
      queryStorageInput := "";
      functionInput := "";
      resultText := [];
      resultTable := [];
      view := TextView;
      status := "";
      shown := None;
    }

    /** `add_recent_query`. */
    method AddRecentQuery(query: string)
      modifies recent
      ensures recent.items == WithRecent(old(recent.items), query)
    {
      AddRecent(recent, query);
    }

    /** `get_recent_queries`: the item texts for the indices 0 .. count - 1. */
    function GetRecentQueries(): (queries: seq<string>)
      reads this, recent
      ensures queries == recent.items
    {
      seq(recent.Count(), i requires 0 <= i < recent.Count() reads recent => recent.ItemText(i))
    }

    /** `set_recent_queries`: the list is replaced; getting it back gives the same list. */
    method SetRecentQueries(queries: seq<string>)
      modifies recent
      ensures recent.items == queries
    {
      recent.Clear();
      if queries != [] {
        recent.AddItems(queries);
      }
    }

    /**
     * `query_function`. `storageExists` is what `os.path.exists` says of the
     * storage field and `loaded` is what loading it gives, or the message of
     * the exception it raises.
     */
    method QueryFunction(storageExists: bool, loaded: Result<Graph, string>)
      requires loaded.Ok? ==> Valid(loaded.value)
      modifies this, recent
      ensures !Proceeds(old(queryStorageInput), storageExists, old(functionInput)) ==>
                unchanged(this) && unchanged(recent)
      ensures Proceeds(old(queryStorageInput), storageExists, old(functionInput)) ==>
                var query := old(functionInput);
                && queryStorageInput == old(queryStorageInput) && functionInput == query
                && view == TextView && resultTable == old(resultTable)
                && (loaded.Err? ==>
                      && resultText == [QUERY_ERROR + loaded.error] && status == QUERY_FAILED
                      && recent.items == old(recent.items) && shown == old(shown))
                && (loaded.Ok? && !HasNode(loaded.value, query) ==>
                      && resultText == [NOT_FOUND + query] && status == NOT_FOUND + query
                      && recent.items == old(recent.items) && shown == old(shown))
                && (loaded.Ok? && HasNode(loaded.value, query) ==>
                      var g := loaded.value;
                      var order := AncestorOrder(g, query);
                      && recent.items == WithRecent(old(recent.items), query)
                      && shown == Some(Ancestors(g, query) + {query})
                      && resultText == Report(query, Filter(order, n => !IsFile(g, n)), Filter(order, n => IsFile(g, n)))
                      && status == ShownMessage(query))
    {
      var storage := queryStorageInput;
      if storage == "" || !storageExists {
        return;
      }
      var query := functionInput;
      if query == "" {
        return;
      }
      status := QueryingMessage(query);
      resultText := [];
      view := TextView;
      if loaded.Err? {
        resultText := resultText + [QUERY_ERROR + loaded.error];
        status := QUERY_FAILED;
        return;
      }
      var g := loaded.value;
      if HasNode(g, query) {
        AddRecentQuery(query);
        var nodes := Ancestors(g, query);
        var functionNodes, fileNodes := SplitByRole(g, AncestorOrder(g, query));
        if query !in nodes {
          nodes := nodes + {query};
        }
        shown := Some(nodes);
        resultText := WriteReport(query, functionNodes, fileNodes);
        status := ShownMessage(query);
      } else {
        resultText := resultText + [NOT_FOUND + query];
        status := NOT_FOUND + query;
      }
    }

    /** The lines `query_function` appends for a found node, one `append` at a time. */
    static method WriteReport(query: string, functionNodes: seq<string>, fileNodes: seq<string>)
      returns (lines: seq<string>)
      ensures lines == Report(query, functionNodes, fileNodes)
    {
      lines := ["查询函数：" + query];
      lines := lines + ["相关函数数量：" + NatToString(|functionNodes|)];
      lines := lines + ["相关文件数量：" + NatToString(|fileNodes|)];
      lines := lines + [FUNCTIONS_HEADING];
      ghost var header := lines;
      for i := 0 to |functionNodes|
        invariant lines == header + functionNodes[..i]
      {
        lines := lines + [functionNodes[i]];
      }
      assert functionNodes[..|functionNodes|] == functionNodes;
      lines := lines + [FILES_HEADING];
      ghost var middle := lines;
      for i := 0 to |fileNodes|
        invariant lines == middle + fileNodes[..i]
      {
        lines := lines + [fileNodes[i]];
      }
      assert fileNodes[..|fileNodes|] == fileNodes;
    }

    /**
     * `list_all_function_entries`. `storageExists` and `loaded` are as for
     * `query_function`. The table gets one row per ranked entry, in rank order.
     */
    method ListAllFunctionEntries(storageExists: bool, loaded: Result<Graph, string>)
      requires loaded.Ok? ==> Valid(loaded.value)
      modifies this
      ensures old(queryStorageInput) == "" || !storageExists ==> unchanged(this)
      ensures old(queryStorageInput) != "" && storageExists ==>
                && queryStorageInput == old(queryStorageInput) && functionInput == old(functionInput)
                && resultText == old(resultText) && shown == old(shown)
                && (loaded.Err? ==> status == ANALYSIS_FAILED && resultTable == old(resultTable) && view == old(view))
                && (loaded.Ok? ==>
                      && view == TableView
                      && (exists ranked :: IsRanking(loaded.value, ranked) && resultTable == Rows(ranked))
                      && status == EntriesFoundMessage(|resultTable|))
    {
      var storage := queryStorageInput;
      if storage == "" || !storageExists {
        return;
      }
      status := ANALYZING;
      if loaded.Err? {
        status := ANALYSIS_FAILED;
        return;
      }
      var ranked := RankFunctionEntries(loaded.value);
      FillTable(ranked);
      assert IsRanking(loaded.value, ranked) && resultTable == Rows(ranked);
      view := TableView;
      status := EntriesFoundMessage(|ranked|);
    }

    /** `setRowCount` and then one `setItem` pair per row. */
    method FillTable(entries: seq<(string, nat)>)
      modifies this`resultTable
      ensures resultTable == Rows(entries)
    {
      resultTable := seq(|entries|, _ => ("", ""));
      for i := 0 to |entries|
        invariant |resultTable| == |entries|
        invariant resultTable[..i] == Rows(entries)[..i]
      {
        resultTable := resultTable[i := (entries[i].0, NatToString(entries[i].1))];
      }
      assert resultTable == resultTable[..|entries|];
    }
  }
}
