# lus4n core in Dafny

lus4n builds a call graph of a Lua code base. For every Lua file it:

- strips a UTF-8 byte-order mark;
- rejects content that looks binary or encrypted;
- decodes the text through an ordered list of encodings;
- hands it to a Lua parser;
- walks the syntax tree with a stack of function scopes.

The walk records, per scope, the callees of every call, plus the `require("...")` arguments. The scopes are `[X]a.b` for a function statement, `[L]name` for a local function and `[G]` outside any function.

A linker then turns each file's scope map into a networkx directed graph:

- each file becomes a node with role `file`;
- each file links to its exported or locally defined functions, or to its default main for global calls;
- each function links to its callees.

An exported `a.rest` is renamed to the package name plus `.rest` unless `a` is a required module.

Three drivers run this linking:

- `scan_path`;
- the older scan thread of the single-window GUI, which decides on a file from its first 100 bytes;
- the newer scan thread, which adds skip reasons, a per-file status table, status-gated linking and status tallies.

Both scan threads poll a cooperative stop flag before every file. On top of the stored graph sit:

- the query helpers of `GraphAnalyzer`: ancestors, type filters, degree-based trimming and in-degree ranking;
- the query tab: an ancestor report and a ranked table of function entries;
- a most-recent-first query list capped at ten entries.

How the model is laid out:

- Python dicts are insertion-ordered `PyDict.Dict` values.
- The networkx graph is a node→"is a file" dict plus an edge map to the edge action. Re-adding an edge overwrites its action.
- Linking one file is a log of writes (`Linker.FileWrites`) applied in order.
- Each imperative loop of the source is a Dafny method with loop invariants, proved against a function that specifies it:
  - the byte test;
  - the decoding loop;
  - the visitor;
  - `output`;
  - linking;
  - file selection;
  - both scan threads;
  - the recent-query list;
  - the table fill.
- The parser, the gb2312/gbk codecs, `relpath` and xxh32 are parameters (`Lus4nGraph.Env`, `UiScanThread.Calls`).
- The file tree is an input sequence of walked files with their read outcomes.
- The stop flag set from another thread is `stopAt`: the number of the first poll after `stop()`.

## Model

| member | source | states |
|---|---|---|
| Ingest.StripBom | lus4n/graph.py:30-31 | exactly one leading EF BB BF is removed; any other content is left as it is |
| Ingest.IsBinary | lus4n/graph.py:33-42 | the early-exit scan of the first 1024 bytes, or'ed with the NUL search, is true iff some byte there is a control byte other than 9/10/13 or is ≥ 127 |
| Ingest.BytecodeLooksBinary | lus4n/graph.py:36-44 | content starting with the precompiled-chunk signature ESC 'L' is always rejected as binary |
| Ingest.ShebangIsText | lus4n/graph.py:36-42 | none of the bytes of `#!/usr/bin/lua` trips the binary test |
| Ingest.DecodeScalar | lus4n/graph.py:47-52 | a UTF-8 sequence uses 1 to 4 bytes, and exactly one byte iff the first byte is ASCII |
| Ingest.DecodeLatin1 | lus4n/graph.py:54-56 | latin-1 decoding is total: one character per byte, with the byte's own code |
| Ingest.FirstDecodingTotal | lus4n/graph.py:21 | because latin-1 closes the list, some encoding always accepts, so the fallback at lines 55-57 is dead |
| Ingest.Decode | lus4n/graph.py:46-57 | the decoding loop returns the text of the first encoding in the list that accepts the bytes |
| Ingest.AsciiIsUtf8 | lus4n/graph.py:47-50 | all-ASCII bytes decode as UTF-8 to the same characters as latin-1 gives |
| Ingest.TextFileDecodesAsItself | lus4n/graph.py:33-50 | a file that passes the binary test and fits the window is read as its own bytes |
| Lus4nGraph.ScanResult | lus4n/graph.py:15-90 | an unreadable file and binary content both give `({}, [])`, and a returned call graph is a well-formed dict |
| Lus4nGraph.ScanResultMeaning | lus4n/graph.py:44-90 | for a readable text file: the empty pair when the parse fails or the walk raises; otherwise a scope is a key of the call graph iff the file makes a call in it, each key is a known tag with a duplicate-free callee list holding exactly the resolved targets of its calls, and a string is in the require list iff the file requires it |
| Lus4nGraph.BytecodeYieldsNothing | lus4n/graph.py:30-44 | a file that starts with ESC 'L' yields the empty result |
| Lus4nGraph.ScanOneFile | lus4n/graph.py:15-90 | `scan_one_file` returns its path with the call graph and require list that `ScanResult` specifies |
| LuaAst.WalkFuncName | lus4n/graph.py:308-315 | a `Name` gives `[id]`; any shape other than a Name/Index chain fails, and that aborts the file; a success is never empty |
| LuaAst.DottedName | lus4n/graph.py:308-315 | the name expression of `a.b.c` is a bare Name exactly when it has one segment |
| LuaAst.WalkDottedName | lus4n/graph.py:308-315 | walking the name expression of segments gives those segments back (round trip) |
| LuaAst.CalleeOf | lus4n/graph.py:270-278 | an Index target gives the inclusive source slice (nothing when its end offset is missing), a Name gives its id, and any other target gives nothing |
| LuaAst.SitesSeqMember | lus4n/graph.py:261-293 | the walk of a node list contains the walk of each child |
| LuaAst.SiteScopesKnown | lus4n/graph.py:253-296 | every call is attributed to `[G]` or to an `[X]`/`[L]` function scope |
| LuaAst.BadFunctionNameFails | lus4n/graph.py:308-315 | a function whose name cannot be walked fails the walk of any list that holds it, so the whole file yields nothing |
| Visitor.RecordSite | lus4n/graph.py:268-278 | the scope key is created even when no callee resolves; a resolved callee is appended to that scope only; other scopes are unchanged |
| Visitor.RecordAllScopes | lus4n/graph.py:263-269 | a scope is in the call graph iff some call was met while it was innermost |
| Visitor.RecordAllCallees | lus4n/graph.py:270-278 | a callee is listed under a scope iff some call in that scope resolved to it |
| Visitor.RequirementsMembers | lus4n/graph.py:279-280 | a string is in the require list iff some call captured it |
| Visitor.DedupAll | lus4n/graph.py:301-303 | `output` keeps the keys and key order, makes every callee list duplicate-free, and keeps each list's members |
| Visitor.ExtractMeaning | lus4n/graph.py:83-86 | on a tree that walks, the result is a valid dict whose scopes are the scopes of calls (all of them known tags) and whose deduplicated callees are those of the calls; the require list holds exactly the captured strings |
| Visitor.Walk | lus4n/graph.py:253-296 | a successful walk of any node leaves the scope stack as it found it (push and pop balance) |
| Visitor.WalkNotesSites | lus4n/graph.py:236-299 | the state-passing walk succeeds iff the call-site specification does, and it then equals recording those sites in order |
| Visitor.WalkSeqNotesSites | lus4n/graph.py:222-234 | the same for a list of nodes walked left to right |
| Visitor.Lus4nVisitor.constructor | lus4n/graph.py:161-167 | empty stack, empty call graph, empty require list |
| Visitor.Lus4nVisitor.RecordCall | lus4n/graph.py:263-280 | the visitor's fields change as the specification's `Note` of that call site says |
| Visitor.Lus4nVisitor.Visit | lus4n/graph.py:236-299 | visiting succeeds iff the specified walk does, and it leaves exactly the walk's stack, call graph and require list |
| Visitor.Lus4nVisitor.VisitScope | lus4n/graph.py:253-296 | push, walk the children, pop: the same meaning for a function definition |
| Visitor.Lus4nVisitor.VisitSeq | lus4n/graph.py:222-234 | the same for a list of children |
| Visitor.Lus4nVisitor.Output | lus4n/graph.py:301-306 | the in-place loop turns the call graph into `DedupAll` of the old one and returns it with the unchanged require list |
| Linker.RelativeKey | lus4n/graph.py:126-128 | the key always starts with `/` and is the path after the root, with a `/` put in front when needed |
| Linker.RelativeKeyRoundTrip | lus4n/graph.py:126-128 | root plus key, with or without the added `/`, gives back the path |
| Linker.RelativeKeyOfJoin | lus4n/graph.py:104-128 | a file `os.path.join(root, name)` is keyed `/name` |
| Linker.PackageName | lus4n/graph.py:131 | the package name has no `/` and is no longer than the base name |
| Linker.PackageNameOfLuaFile | lus4n/graph.py:131 | `dir/stem.lua` has package name `stem` |
| Linker.ExportedName | lus4n/graph.py:138-147 | a single-segment name is kept; `a.rest` is kept when `a` is required, else it becomes package name + `.rest` |
| Linker.TagRoundTrip | lus4n/graph.py:139 | removing `[X]` (or `[L]` at line 152) from a pushed tag gives back the dotted name |
| Linker.LastWriteWins | lus4n/graph.py:136-155 | after the writes, an edge exists iff it existed or was written, and its action is the last written one (networkx `add_edge` overwrites) |
| Linker.FileRoles | lus4n/graph.py:130 | a node has role `file` iff it was written as a file node or had that role before (edge writes never add the role) |
| Linker.CallEdges | lus4n/graph.py:149-150 | one `call` edge from the function to each callee, in callee order |
| Linker.GlobalWrites | lus4n/graph.py:133-137 | for each global callee, first the file's export edge to its default main, then that main's call edge |
| Linker.DefaultMain | lus4n/graph.py:134 | the default main name starts with the package name and ends with the path hash |
| Linker.GlobalWritesMeaning | lus4n/graph.py:133-137 | `[G]` links the file to its default main only when it has a callee, and links the main to each callee |
| Linker.ScopeWritesMeaning | lus4n/graph.py:138-155 | an `[X]` or `[L]` scope links the file to its symbol even without callees, and the symbol to each callee |
| Linker.Link | lus4n/graph.py:129-155 | the in-place linking loop leaves the network that applying the file's write log specifies |
| Linker.LinkKey | lus4n/graph.py:132-155 | the network and the write log after linking one scope key: the log grows by that key's `KeyWrites` |
| Linker.KeyRulesExclusive | lus4n/graph.py:132-155 | `[G]`, the `[X]` prefix and the `[L]` prefix exclude one another, so a key's writes are those of the one rule that applies |
| Linker.LinkGlobal | lus4n/graph.py:133-137 | the `[G]` loop appends the global writes |
| Linker.LinkScope | lus4n/graph.py:148-155 | the `[X]`/`[L]` loop appends the file edge and the call edges |
| Lus4nGraph.WillScanMembers | lus4n/graph.py:108-116 | a file is selected iff its full path has an extension and it is not a precompiled chunk, or it starts with `#!/usr/bin/lua` |
| Lus4nGraph.BytecodeNeverScanned | lus4n/graph.py:113-116 | a precompiled chunk is never selected, whatever its name |
| Lus4nGraph.SelectFiles | lus4n/graph.py:102-116 | the walk loop appends exactly the selected files, in walk order |
| Lus4nGraph.SelectOne | lus4n/graph.py:106-120 | a file is kept exactly when it is selected; a read error skips it |
| Lus4nGraph.ScannedKeys | lus4n/graph.py:124-129 | the whole call graph has exactly one entry per relative key of a selected file; a later file with the same key overwrites |
| Lus4nGraph.ScannedFileNodes | lus4n/graph.py:129-130 | the file nodes of the network are exactly the keys of the whole call graph |
| Lus4nGraph.ScanAll | lus4n/graph.py:124-155 | the per-file loop builds the specified whole call graph and network |
| Lus4nGraph.ScanPath | lus4n/graph.py:93-156 | `scan_path` returns the specified pair, with `.lua` when no extensions are given |
| Network.AddFileNode | lus4n/graph.py:130 | `add_node(n, role='file')` marks `n` as a file, appends it if new, and leaves the edges alone |
| Network.AddEdge | lus4n/graph.py:136 | `add_edge` sets the action of the pair, adds missing end points without a role, and changes no role |
| Network.ClosureIsReachability | lus4n/ui/graph_analyzer.py:38 | the backward closure from `f` is exactly the set of nodes with a path to `f` |
| PyDict.Put | lus4n/graph.py:129 | assigning a key sets its value and appends the key only if it is new |
| PyDict.SetDefault | lus4n/graph.py:268-269 | a missing key gets the default, and a present key is left alone |
| Analyzer.GraphAnalyzer.constructor | lus4n/ui/graph_analyzer.py:16-18 | no graph and no storage path |
| Analyzer.GraphAnalyzer.LoadGraph | lus4n/ui/graph_analyzer.py:20-27 | a missing storage file raises and changes nothing; a load that raises leaves the graph but has already stored the path; otherwise the loaded graph and path are stored |
| Analyzer.GraphAnalyzer.GetFunctionAncestors | lus4n/ui/graph_analyzer.py:29-42 | no graph or an unknown name is an error; otherwise the result holds `f` plus exactly the nodes with a path to `f` |
| Analyzer.GraphAnalyzer.FilterNodesByType | lus4n/ui/graph_analyzer.py:44-53 | the nodes are returned unchanged when files are shown; otherwise exactly the non-file nodes are returned, and a name outside the graph raises; without a graph it is an error |
| Analyzer.ImportanceOrder | lus4n/ui/graph_analyzer.py:70-79 | the other nodes, sorted by non-increasing degree, each once |
| Analyzer.ImportanceFilterTrims | lus4n/ui/graph_analyzer.py:60-84 | the corrected filter: when it trims, every important node is kept, the size is at most max(max_nodes, important), and each kept other node has degree ≥ each dropped one |
| Analyzer.ImportanceFilterAsWrittenOverflows | lus4n/ui/graph_analyzer.py:82 | with more important nodes than `max_nodes`, the negative slice keeps other nodes and the result outgrows that bound |
| Analyzer.ImportanceFilterSample | lus4n/ui/graph_analyzer.py:82 | the concrete input of the finding below: as written 3 nodes, corrected 2 |
| Analyzer.ImportanceFilterAsWrittenTrims | lus4n/ui/graph_analyzer.py:60-84 | when the filter as written trims, every important node is kept, at most `max_nodes` nodes are kept while the important ones fit, and each kept other node has degree ≥ each dropped one |
| Analyzer.ImportanceFilterAsWrittenDominates | lus4n/ui/graph_analyzer.py:70-82 | a kept other node has degree ≥ a dropped one |
| Analyzer.ImportanceFiltersAgree | lus4n/ui/graph_analyzer.py:82 | while the important nodes fit `max_nodes`, the filter as written and the corrected one give the same set |
| Analyzer.GraphAnalyzer.FilterNodesByImportance | lus4n/ui/graph_analyzer.py:55-84 | the filter as written: the nodes unchanged when they fit; otherwise every important node, at most `max_nodes` nodes while the important ones fit, higher-degree other nodes before lower ones; a non-important name outside the graph raises when trimming; without a graph it is an error |
| Analyzer.SplitByRole | lus4n/ui/graph_analyzer.py:91-100 | the function list and the file list are the order-preserving filters by role, and their lengths add up to the input's |
| Analyzer.GraphAnalyzer.SeparateNodesByType | lus4n/ui/graph_analyzer.py:86-100 | `(function_nodes, file_nodes)` as `SplitByRole` specifies; an error when a name is outside the graph or there is no graph |
| Analyzer.CollectFunctionEntries | lus4n/ui/graph_analyzer.py:108-118 | exactly the non-file nodes with in-degree > 0, each paired with its in-degree, each once |
| Analyzer.RankFunctionEntries | lus4n/ui/graph_analyzer.py:108-121 | the same entries, sorted by non-increasing in-degree, with distinct names |
| Analyzer.GraphAnalyzer.GetAllFunctionEntries | lus4n/ui/graph_analyzer.py:102-121 | the ranking above, or an error without a graph |
| Analyzer.GraphAnalyzer.GetAllNodes | lus4n/ui/graph_analyzer.py:123-128 | exactly the graph's nodes, or an error without a graph |
| Sorting.SortDesc | lus4n/ui/graph_analyzer.py:121 | `sorted(..., reverse=True)` gives a permutation of its input, sorted non-increasingly by the key |
| ScanStatus.EffectiveExtensions | lus4n/ui/scan_thread.py:51-53 | an empty extension list becomes `[".lua"]`; any other is kept |
| UiScanThread.ClassifyReasons | lus4n/ui/scan_thread.py:68-97 | a permission error and any other read error are skips with their reasons; binary content is a binary skip; a file is kept iff it is readable, not binary, and selected by its file name and content |
| UiScanThread.BinaryShebangSkipped | lus4n/ui/scan_thread.py:74-83 | the binary test runs first, so a shebang file with a binary byte is skipped as binary |
| UiScanThread.BomFileSkipped | lus4n/ui/scan_thread.py:74-83 | the BOM is not stripped here, so a file starting with EF BB BF is skipped as binary |
| UiScanThread.NameDecides | lus4n/ui/scan_thread.py:71-93 | for readable text without the shebang, the file name's extension alone decides |
| UiScanThread.Route | lus4n/ui/scan_thread.py:82-97 | a kept file is appended to `will_scan`, a skipped one to `skipped_files` with its reason |
| UiScanThread.CollectPartition | lus4n/ui/scan_thread.py:59-97 | every walked file lands in exactly one list: in `will_scan` iff classified as kept, in `skipped_files` with reason r iff classified with r; the lengths add up |
| UiScanThread.StatusOf | lus4n/ui/scan_thread.py:128-170 | the status is the returned one, or the parse-error text followed by the exception message when the scan raised |
| UiScanThread.ProcessedStatus | lus4n/ui/scan_thread.py:126-131 | every processed file, and nothing else, has a status under its relative path |
| UiScanThread.ProcessedLinks | lus4n/ui/scan_thread.py:133-140 | the whole call graph and the file nodes hold exactly the keys of files that returned "成功" with a non-empty call graph |
| UiScanThread.FailureLinksNothing | lus4n/ui/scan_thread.py:134-170 | a file that raised or did not succeed adds nothing to the graph or the network |
| UiScanThread.Tally | lus4n/ui/scan_thread.py:186-188 | each status is counted by its number of occurrences |
| UiScanThread.TallySum | lus4n/ui/scan_thread.py:186-188 | the tallies add up to the number of entries counted |
| UiScanThread.TallyStatuses | lus4n/ui/scan_thread.py:186-188 | the tally loop over the status table computes `Tally` of its values |
| UiScanThread.ScanThread.constructor | lus4n/ui/scan_thread.py:22-27 | the thread starts unstopped, with nothing sent or stored |
| UiScanThread.ScanThread.Stop | lus4n/ui/scan_thread.py:215-217 | sets the flag |
| UiScanThread.ScanThread.Poll | lus4n/ui/scan_thread.py:61 | the flag is seen set iff it was set before or `stop` came before this poll |
| UiScanThread.ScanThread.CollectFiles | lus4n/ui/scan_thread.py:59-97 | the walk completes iff no poll sees the flag, and then gives exactly `Collect` of the walked files |
| UiScanThread.ScanThread.ProcessOne | lus4n/ui/scan_thread.py:126-170 | one file is processed as `Step` specifies |
| UiScanThread.ScanThread.ProcessFiles | lus4n/ui/scan_thread.py:116-174 | processing completes iff no poll sees the flag, and then gives exactly `Processed` of the kept files |
| UiScanThread.ScanThread.Scan | lus4n/ui/scan_thread.py:47-174 | both phases together give the specified result, or None when stopped |
| UiScanThread.ScanThread.Run | lus4n/ui/scan_thread.py:29-213 | a directory error ends in "扫描出错"; a stop ends in "扫描已中止" with nothing stored or sent; otherwise the result is stored (or a dump error ends in "扫描出错"), `scan_finished` carries it, and the status ends "扫描完成" |
| Gui.Head | lus4n/gui.py:118-119 | `f.read(100)` is a prefix of the file, of length 100 or the whole file when shorter |
| Gui.HeadDecidesAsWhole | lus4n/gui.py:118-129 | both signatures fit in 100 bytes, so the window decides exactly as `scan_path`'s whole-content test |
| Gui.GuiScanIsScanPath | lus4n/gui.py:107-189 | unless stopped, the GUI's thread computes what `scan_path` computes for the same tree |
| Gui.ScanThread.constructor | lus4n/gui.py:74-79 | the thread starts unstopped, with nothing sent or stored |
| Gui.ScanThread.Stop | lus4n/gui.py:213-215 | sets the flag |
| Gui.ScanThread.Poll | lus4n/gui.py:111 | the flag is seen set iff it was set before or `stop` came before this poll |
| Gui.ScanThread.CollectFiles | lus4n/gui.py:107-133 | the walk completes iff no poll sees the flag, and then selects exactly the files `scan_path` would |
| Gui.ScanThread.ReadsAsSelected | lus4n/gui.py:117-133 | the 100-byte test keeps a file exactly when it is selected; read errors skip it |
| Gui.ScanThread.ScanFiles | lus4n/gui.py:137-189 | scanning completes iff no poll sees the flag, and then builds the same graph and network as `scan_path`'s loop |
| Gui.ScanThread.Scan | lus4n/gui.py:97-189 | both phases together give the specified result, or None when stopped |
| Gui.ScanThread.Run | lus4n/gui.py:81-211 | the same endings as the newer thread, except that only the network is dumped |
| Gui.ParseExtensions | lus4n/gui.py:453 | splitting on `,` gives one part more than there are commas |
| Gui.ParseExtensionsTrimmed | lus4n/gui.py:453 | each part holds no comma and has no surrounding white space |
| Gui.FullWidthSpaceStripped | lus4n/gui.py:453 | a full-width space (U+3000) around an extension is stripped like an ASCII blank |
| Gui.BlankExtensionsSelectEverything | lus4n/gui.py:453 | an empty field parses to `[""]`, which every path ends with |
| Gui.Lus4nGui.constructor | lus4n/gui.py:223-236 | not scanning, no thread, `.lua` in the extension field, empty recent list |
| Gui.Lus4nGui.UpdateStatus | lus4n/gui.py:422-433 | the message is shown; only the three terminal messages clear `scanning` and hide the progress bar |
| Gui.Lus4nGui.StartScan | lus4n/gui.py:436-485 | nothing happens while scanning or without an existing path; otherwise the storage defaults, the extensions are parsed, a fresh unstopped thread is made, and `scanning` is set |
| Gui.Lus4nGui.AwaitScan | lus4n/gui.py:427-429 | every way the run ends sends a terminal status, so the window stops scanning |
| Gui.Lus4nGui.AddRecentQuery | lus4n/gui.py:515-528 | the list becomes `WithRecent` of the old list |
| Recent.RecentCombo.FindText | lus4n/ui/query_tab.py:128 | the index of the first matching item, or -1 iff there is none |
| Recent.RecentCombo.RemoveItem | lus4n/ui/query_tab.py:130 | removes the item at an index in range; an index out of range changes nothing |
| Recent.RecentCombo.InsertItem | lus4n/ui/query_tab.py:133 | inserts at the index; an index past the end appends |
| Recent.RemoveEarlier | lus4n/ui/query_tab.py:128-130 | the earlier entry of the query, if any, is removed |
| Recent.MoveToTop | lus4n/ui/query_tab.py:128-133 | the query is at the top, followed by the old list without its earlier entry |
| Recent.Truncate | lus4n/ui/query_tab.py:137-138 | the while loop cuts the list to its first ten items |
| Recent.AddRecent | lus4n/ui/query_tab.py:125-138 | the combo box ends as `WithRecent` of its old items |
| Recent.WithRecentProperties | lus4n/ui/query_tab.py:125-138 | the list starts with the query and has 1 to 10 items; from a list without repeats, it holds the query once and the other items in their old order |
| Recent.WithoutFirstIsFilter | lus4n/ui/query_tab.py:128-130 | in a list without repeats, removing the first occurrence removes every occurrence |
| QueryTab.QueryTab.constructor | lus4n/ui/query_tab.py:26-30 | empty inputs, results and recent list; text view |
| QueryTab.QueryTab.AddRecentQuery | lus4n/ui/query_tab.py:125-142 | the list becomes `WithRecent` of the old list |
| QueryTab.QueryTab.GetRecentQueries | lus4n/ui/query_tab.py:220-222 | the items, in display order |
| QueryTab.QueryTab.SetRecentQueries | lus4n/ui/query_tab.py:224-228 | the list is replaced as a whole |
| QueryTab.Ancestors | lus4n/ui/query_tab.py:171 | `nx.ancestors`: exactly the other nodes with a path to the query |
| QueryTab.AncestorPartition | lus4n/ui/query_tab.py:172-179 | the file list and the function list are disjoint by role, cover the ancestors, are each duplicate-free, and their sizes add up to the number of ancestors |
| QueryTab.Report | lus4n/ui/query_tab.py:197-206 | the report has five fixed lines plus the function names after the fourth and the file names after the fifth |
| QueryTab.QueryTab.WriteReport | lus4n/ui/query_tab.py:197-206 | the appending loops write exactly `Report` |
| QueryTab.QueryTab.QueryFunction | lus4n/ui/query_tab.py:144-218 | an empty or missing storage path or an empty query changes nothing; a load error shows the error; an unknown query shows "not found" with the recent list unchanged; a node updates the recent list, shows the ancestors plus the query, and writes the report of the partition |
| QueryTab.Rows | lus4n/ui/query_tab.py:274-277 | one row per entry, holding the name and a decimal text that reads back as the count |
| QueryTab.QueryTab.FillTable | lus4n/ui/query_tab.py:274-277 | the indexed loop fills the table with `Rows` of the entries |
| QueryTab.QueryTab.ListAllFunctionEntries | lus4n/ui/query_tab.py:244-286 | early return without a storage file; a load error shows "分析出错"; otherwise the table shows a ranking of exactly the non-file nodes with in-degree > 0, sorted non-increasingly, and the status counts the rows |
| Text.JoinSplit | lus4n/gui.py:453 | splitting and joining with the separator gives the text back |
| Text.SplitCount | lus4n/gui.py:453 | `split` gives one part more than there are separators |
| Text.StripProperties | lus4n/gui.py:453 | `strip` returns the slice of the input between a white-space prefix and a white-space suffix, with no white space at either end (Python's white space, ASCII and Unicode) |
| Text.Basename | lus4n/graph.py:131 | the base name holds no `/` and ends the path |
| Text.NatToStringRoundTrip | lus4n/ui/query_tab.py:277 | `str(count)` reads back as the count |

## Left out

- Qt is not modelled: widgets, signals and their connection, QThread scheduling, message boxes, `setCurrentIndex`, the progress bar's range, repaint and `processEvents`. A signal is a field that holds the last message or payload sent.
- Settings persistence is not modelled: `loadSettings`, `saveSettings` and `save_settings` on the parent, and `get/set_storage_path`.
- The query tab's `browse_*`, `on_recent_selected` and `on_function_entry_clicked` are UI glue and are not modelled.
- The file system is an input, not an operation:
  - `os.walk` is an input sequence of walked files with their read outcomes;
  - `os.path.exists` is a boolean parameter;
  - `os.makedirs` and the `joblib` dump and load are outcome parameters (a failure message, or a stored or loaded graph).
- The Lua parser, the gb2312 and gbk codecs, `os.path.relpath` and `xxhash.xxh32` are parameters; only their results are used.
- The missing-file `exit(1)` at the top of `scan_one_file` is not modelled: the drivers only call it on walked files.
- `UiScanThread.StatusOf`: the newer thread unpacks four values from a function that returns three. As written, every file would take the exception branch. The model takes each file's outcome (a call graph, require list and status, or an exception message) as an input instead.
- Logging is not modelled: `logger`, `json.dumps`, `update_log` texts, the skipped-file and status listings, the `sys.stdout` redirection and the float progress percentage. The status tallies are modelled because they are computed, even though they are only logged.
- The visitor's pretty-printed string and its `indent`/`dedent`/`pretty_count` helpers are not modelled.
- `Visitor.Lus4nVisitor.Visit` records each `Call` once. The source repeats the call handling once per attribute of the Call node. After `output` the callee lists are equal, but the `require` list can hold the same module several times. The model keeps membership, which is all the linker uses, not multiplicity.
- Set iteration order is taken to be node insertion order: `nx.ancestors`, the sets of `GraphAnalyzer`, and the report order in `query_function`.
- `Seqs.Dedup` and `Visitor.DedupAll` model `list(set(...))` as first-occurrence order. Python gives hash order; the model keeps the members, not their order.
- The sort in `Sorting.SortDesc` is not claimed to be stable. Python's `sorted` is stable; ties are in some order in the model.
- `QueryTab.QueryTab.QueryFunction` does not model rendering. It leaves out the pyvis rendering, the uuid-named HTML file and `webbrowser`. The displayed subgraph is modelled as its node set only.
- `gui.py`'s `query_function`, `on_scan_finished`, `on_scan_error` and `closeEvent` are not modelled. The first is a copy of the query tab's; the rest are message boxes and settings.
- Each file is read twice: `scan_path` reads it at lus4n/graph.py:106 to select it and `scan_one_file` reads it again at lus4n/graph.py:27; the older thread reads 100 bytes then the whole file. The model uses one read outcome per walked file for both, so a file that changes between the reads is not modelled.
- `Analyzer.GraphAnalyzer.FilterNodesByImportance` models the filter as written. The corrected filter `Analyzer.ImportanceFilter` is stated beside it; the two agree while the important nodes fit `max_nodes`.
- `Analyzer.AnalyzerError.NodeMissing` does not carry the missing name: the KeyError at lus4n/ui/graph_analyzer.py:52 and :95 names it, the TypeError at line 72 does not, and which name a set comprehension meets first is set order.

## Findings

| source | as written | input that shows it | evidently intended | confidence | as-written member | corrected member |
|---|---|---|---|---|---|---|
| lus4n/ui/graph_analyzer.py:82 | `sorted_nodes[:max_nodes-len(filtered_nodes)]` slices from the end when there are more important nodes than `max_nodes`, so most other nodes are kept as well | nodes `a b c d`, `max_nodes` 1, important `{a, b}`: the result has 3 nodes, more than both 1 and 2 | no other node is added once the important ones fill the budget, so the result has at most max(max_nodes, important) nodes | not executed | Analyzer.ImportanceFilterAsWrittenOverflows | Analyzer.ImportanceFilterTrims |
