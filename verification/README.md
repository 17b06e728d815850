# VB6 recovery pipeline, modelled in Dafny

This project models the core of a grammar-less recovery pipeline for Visual
Basic 6 projects. The pipeline reads the text of `.vbp` manifests, `.bas`
modules and `.frm` forms line by line. From them it recovers typed facts:
- project names, startup targets and entries;
- module names and their Sub/Function routines;
- form names and their `<control>_<event>` handlers;
- the SHOW, LOAD and CALL references inside each routine and handler.

From the analysis it builds a node/edge graph and renders it as a Mermaid
flowchart. A set of Python wiki helpers reads the same sources:
- they list the files a manifest references;
- they collect the comment block above a routine;
- they outline a file and capture the text of one routine;
- they index which projects reference which file.

The modules follow the source files:

| Dafny module | file | models |
|---|---|---|
| `Base` | base.dfy | null (`Option`), thrown exceptions (`Result`/`Error`), the file system the pipeline sees |
| `Text` | text.dfy | Java `trim`, Python `strip`, ASCII case mapping, `indexOf`, `String.compareTo` |
| `Patterns` | patterns.dfy | every regular expression of the extractors and the wiki helpers, as a concrete matcher |
| `VbpIndex` | vbp_index.dfy | `VbpIndex.parse` and `buildEntry` |
| `Facts` | facts.dfy | the records the extractors return (`BasRoutine`, `FrmEvent`, `EntryStatus`, `ProjectSummary`, ...) |
| `LineScan` | line_scan.dfy | the start/end state machine shared by both extractors' `analyze`, and their `matcher.find()` loops |
| `BasExtractor` | bas_extractor.dfy | `BasExtractor.analyze` and `extractCalls` |
| `FrmExtractor` | frm_extractor.dfy | `FrmExtractor.analyze` and `extractCalls` |
| `Extractors` | extractors.dfy | `Vb6Extractor`, `RegexVb6Extractor` and `ProleapAstExtractor` |
| `Lists` | lists.dfy | `stream.filter` and the stable `List.sort` under a nulls-last comparator |
| `ProjectAnalyzer` | project_analyzer.dfy | `ProjectAnalyzer.analyze(root, extractor)` |
| `Graph` | graph.dfy | `GraphNode`, `GraphEdge` and the `GraphModel` class |
| `GraphBuilder` | graph_builder.dfy | `GraphBuilder.build` and `nullSafe` |
| `Mermaid` | mermaid.dfy | `MermaidRenderer.render` and `sanitize` |
| `Cli` | cli.dfy | `jsonString` and `parseExtractor` of `ProjectAnalyzeCli` |
| `WikiOutline` | wiki_outline.dfy | `_collect_comment_block`, `get_file_structure`, `read_function_code` |
| `WikiManifest` | wiki_manifest.dfy | `get_all_projects`, `get_project_file_list`, `build_project_structure` |

## How the model is written

**Loops.** Each loop of the source is a Dafny `method` with its loop. Each
such method is proved equal to a specification function over the input
lines, for example `BasExtractor.AnalyzeLines` against `ModuleFacts`.
Lemmas then state the properties of that function.

**The two extractors.** Both run the same state machine. It is written once,
as `LineScan.Step`/`LineScan.Run` over per-line `Mark`s, and described a
second time independently. The independent description is "spans": a
header line, then an end line, with neither in between. The lemmas
`BlocksAreSpans` and `SpansAreBlocks` connect the two descriptions.

**Graph building.** `GraphModel` is a class whose two sequence fields are
updated in place. `GraphBuilder.Build` runs one method per nesting level of
the source's loops. Each method is specified by the sequence of
`addNode`/`addEdge` calls it makes (`Op`s). The node and edge counts,
closure of edges over earlier nodes, labels and ordering are proved about
those call sequences.

**Errors and null.** Exceptions become `Result.Err` with the exception's
kind and message. Java `null` and Python `None` become `Option.None`.

## Model

| member | source | states |
|---|---|---|
| VbpIndex.BuildEntry | backend/parser/src/main/java/com/codex/vb6/parser/VbpIndex.java:48-58 | the entry keeps its type; it has no name exactly when the value has no `;`, and then its path is the whole value |
| VbpIndex.EntrySplitsAtFirstSemicolon | backend/parser/src/main/java/com/codex/vb6/parser/VbpIndex.java:52-56 | with a `;`, the name is the trimmed text before the first `;` and the path the trimmed text after it |
| VbpIndex.NamedEntry | backend/parser/src/main/java/com/codex/vb6/parser/VbpIndex.java:52-56 | `name;path` with no `;` in the name gives the trimmed name and the trimmed path; later `;` stay in the path |
| VbpIndex.DirectiveOf | backend/parser/src/main/java/com/codex/vb6/parser/VbpIndex.java:23-30 | a line is skipped exactly when its trimmed text is empty, starts with `'`, or has no `=` |
| VbpIndex.DirectiveSplitsAtFirstEquals | backend/parser/src/main/java/com/codex/vb6/parser/VbpIndex.java:27-34 | the key is the lower-cased trimmed text before the first `=`; the value is the trimmed text after it, which may hold more `=` |
| VbpIndex.CommentIsIgnored | backend/parser/src/main/java/com/codex/vb6/parser/VbpIndex.java:23-26 | a blank or `'`-comment line yields no directive |
| VbpIndex.Parse | backend/parser/src/main/java/com/codex/vb6/parser/VbpIndex.java:16-46 | an IOException exactly when the manifest cannot be read; otherwise the project of its lines |
| VbpIndex.ParseLines | backend/parser/src/main/java/com/codex/vb6/parser/VbpIndex.java:19-45 | the line loop, with its reassigned name/startup and growing entry list, yields `ProjectOf(lines)` |
| VbpIndex.ReadDirective | backend/parser/src/main/java/com/codex/vb6/parser/VbpIndex.java:23-32 | the trimmed line is skipped (None) exactly as `DirectiveOf` says; otherwise the lower-cased key before the first `=` and the trimmed value after it |
| VbpIndex.LastValueIsLastOccurrence | backend/parser/src/main/java/com/codex/vb6/parser/VbpIndex.java:35-36 | name and startup stay null exactly when no line sets them; otherwise they hold the value of the last line that does |
| VbpIndex.LastValueAppend | backend/parser/src/main/java/com/codex/vb6/parser/VbpIndex.java:35-36 | a later `name=`/`startup=` line overrides every earlier one |
| VbpIndex.EntriesAppend | backend/parser/src/main/java/com/codex/vb6/parser/VbpIndex.java:37-39 | the entries of two runs of lines are the entries of the first followed by those of the second |
| VbpIndex.EntryLine | backend/parser/src/main/java/com/codex/vb6/parser/VbpIndex.java:37-41 | a form/module/class line appends exactly one entry of its type, built from its value, after the earlier entries; any other line appends none |
| VbpIndex.IgnoredForKey | backend/parser/src/main/java/com/codex/vb6/parser/VbpIndex.java:34-36 | a line without a given key does not change that key's last value |
| VbpIndex.IgnoredForEntries | backend/parser/src/main/java/com/codex/vb6/parser/VbpIndex.java:37-41 | a line that is not a form/module/class directive does not change the entries |
| VbpIndex.IgnoredLine | backend/parser/src/main/java/com/codex/vb6/parser/VbpIndex.java:22-43 | deleting a skipped line or a line with an unknown key leaves the whole project unchanged |
| Patterns.ModuleNameOf | backend/extractor/src/main/java/com/codex/vb6/extractor/BasExtractor.java:14 | the captured module name is non-empty and holds no `"` |
| Patterns.RoutineStartOf | backend/extractor/src/main/java/com/codex/vb6/extractor/BasExtractor.java:15 | a routine start captures `Sub` or `Function` in any case and an identifier |
| Patterns.FormNameOf | backend/extractor/src/main/java/com/codex/vb6/extractor/FrmExtractor.java:14 | the captured form name is a non-empty run of word characters |
| Patterns.LastSplit | backend/extractor/src/main/java/com/codex/vb6/extractor/FrmExtractor.java:15 | the greedy `(\w+)_` backtracks to the last `_` that still leaves a non-empty second group |
| Patterns.EndBeforeTerminator | backend/extractor/src/main/java/com/codex/vb6/extractor/BasExtractor.java:16 | ROUTINE_END's `$` (`Patterns.AtEnd`) matches before a final line terminator that `\s*` does not consume: `End Sub` followed by U+2028 closes a routine |
| Patterns.EventEndBeforeTerminator | backend/extractor/src/main/java/com/codex/vb6/extractor/FrmExtractor.java:16 | EVENT_END accepts `End Sub`, trailing space and a final U+0085 |
| Patterns.EventEndNotBeforeInnerTerminator | backend/extractor/src/main/java/com/codex/vb6/extractor/FrmExtractor.java:16 | EVENT_END rejects `End Sub` followed by two U+2029: `$` does not match before a terminator that more text follows |
| Patterns.EventStartOf | backend/extractor/src/main/java/com/codex/vb6/extractor/FrmExtractor.java:15 | an event header captures two non-empty parts whose join with `_` is a word |
| Patterns.CallAt | backend/extractor/src/main/java/com/codex/vb6/extractor/BasExtractor.java:17 | a call match ends after its start and its target is a name, optionally qualified by one `.` |
| Patterns.ShowAt | backend/extractor/src/main/java/com/codex/vb6/extractor/FrmExtractor.java:18 | a `.Show` match ends after its start and its target is an identifier |
| Patterns.LoadAt | backend/extractor/src/main/java/com/codex/vb6/extractor/FrmExtractor.java:19 | a `Load` match ends after its start and its target is an identifier |
| Patterns.Find | backend/extractor/src/main/java/com/codex/vb6/extractor/FrmExtractor.java:73 | `find()` from a position returns a match that ends after that position, so the loop advances |
| Patterns.FindShape | backend/extractor/src/main/java/com/codex/vb6/extractor/FrmExtractor.java:17-19 | every call match is a possibly qualified name; every SHOW or LOAD match is an identifier |
| Patterns.TargetsShape | backend/extractor/src/main/java/com/codex/vb6/extractor/FrmExtractor.java:72-88 | every target collected by a `while (find())` loop has the shape of its pattern |
| Patterns.WikiHeaderOf | wiki_tools.py:75-80 | a routine header captures a non-empty kind and an identifier name |
| LineScan.TitleIsFirst | backend/extractor/src/main/java/com/codex/vb6/extractor/BasExtractor.java:33-38 | the title stays null exactly when no line declares one; otherwise it is the first declared, never overwritten |
| LineScan.OpenState | backend/extractor/src/main/java/com/codex/vb6/extractor/BasExtractor.java:40-59 | a block is open at the end exactly when some header has no header or end line after it, and it is the block of that header |
| LineScan.BlockAt | backend/extractor/src/main/java/com/codex/vb6/extractor/BasExtractor.java:44 | a block opened on line index `s` carries the 1-based line number `s + 1` |
| LineScan.BlocksAreSpans | backend/extractor/src/main/java/com/codex/vb6/extractor/BasExtractor.java:49-55 | every emitted block is a header closed by an end line with neither in between, carrying the calls of the lines strictly between |
| LineScan.SpansAreBlocks | backend/extractor/src/main/java/com/codex/vb6/extractor/BasExtractor.java:49-55 | every such header/end pair is emitted |
| LineScan.LineNumbersIncrease | backend/extractor/src/main/java/com/codex/vb6/extractor/BasExtractor.java:44-51 | emitted line numbers lie in 1..lines and strictly increase; an open block starts after every emitted one |
| LineScan.NoEndNoBlocks | backend/extractor/src/main/java/com/codex/vb6/extractor/BasExtractor.java:50-55 | without an end line nothing is emitted |
| LineScan.OpenBlockDropped | backend/extractor/src/main/java/com/codex/vb6/extractor/BasExtractor.java:40-62 | a block still open at the end of the file is never emitted |
| LineScan.CallsForKeeps | backend/extractor/src/main/java/com/codex/vb6/extractor/BasExtractor.java:73-78 | the calls are CALLs on the trimmed line to every found target except `Call` in any case, and only those |
| LineScan.TaggedAt | backend/extractor/src/main/java/com/codex/vb6/extractor/FrmExtractor.java:72-80 | the k-th SHOW/LOAD reference is the k-th match, tagged, on the trimmed line |
| LineScan.CollectCalls | backend/extractor/src/main/java/com/codex/vb6/extractor/BasExtractor.java:71-80 | the `while (callMatcher.find())` loop collects `CallsFor` of all the call pattern's targets |
| LineScan.CollectTagged | backend/extractor/src/main/java/com/codex/vb6/extractor/FrmExtractor.java:72-80 | the SHOW and LOAD loops collect every match of their pattern, tagged, in order |
| BasExtractor.CallRefsSpec | backend/extractor/src/main/java/com/codex/vb6/extractor/BasExtractor.java:65-80 | nothing for a blank or comment line; otherwise every reference is a CALL on the trimmed line to a name other than `Call`, and every such name found is referenced |
| BasExtractor.ExtractCalls | backend/extractor/src/main/java/com/codex/vb6/extractor/BasExtractor.java:65-81 | extractCalls returns `CallRefs(line)` |
| BasExtractor.KindIsKeyword | backend/extractor/src/main/java/com/codex/vb6/extractor/BasExtractor.java:42 | upper-casing a keyword matched as sub/function in any case gives `SUB` or `FUNCTION` |
| BasExtractor.RoutineHeader | backend/extractor/src/main/java/com/codex/vb6/extractor/BasExtractor.java:40-47 | a line opens a routine exactly when it matches the start pattern; the routine is named by group 2 and its kind is group 1 upper-cased |
| BasExtractor.Routines | backend/extractor/src/main/java/com/codex/vb6/extractor/BasExtractor.java:51 | one routine per emitted block, in emission order |
| BasExtractor.Analyze | backend/extractor/src/main/java/com/codex/vb6/extractor/BasExtractor.java:22-63 | an IOException exactly when the file cannot be read; otherwise the facts of its lines |
| BasExtractor.AnalyzeLine | backend/extractor/src/main/java/com/codex/vb6/extractor/BasExtractor.java:32-59 | one iteration of the loop over Java's local variables performs one `Step` of the state machine |
| BasExtractor.AnalyzeLines | backend/extractor/src/main/java/com/codex/vb6/extractor/BasExtractor.java:24-62 | the loop returns `ModuleFacts(lines)` |
| BasExtractor.ModuleNameIsFirst | backend/extractor/src/main/java/com/codex/vb6/extractor/BasExtractor.java:33-38 | the module name stays null exactly when no line has a VB_Name attribute; otherwise it comes from the first such line, inside or outside routines |
| BasExtractor.HeaderShapes | backend/extractor/src/main/java/com/codex/vb6/extractor/BasExtractor.java:40-43 | every header read has an identifier name and kind `SUB` or `FUNCTION` |
| BasExtractor.RoutineKinds | backend/extractor/src/main/java/com/codex/vb6/extractor/BasExtractor.java:40-51 | every emitted routine has kind `SUB` or `FUNCTION` and an identifier name |
| BasExtractor.RoutinesAreClosed | backend/extractor/src/main/java/com/codex/vb6/extractor/BasExtractor.java:49-59 | the routines are exactly the start lines closed by `End Sub` or `End Function` (either closes either) with no start or end between, each with the calls of exactly the lines between |
| BasExtractor.RoutineLineNumbers | backend/extractor/src/main/java/com/codex/vb6/extractor/BasExtractor.java:44-51 | routine line numbers are 1-based start lines within the file, strictly increasing |
| BasExtractor.OpenRoutineDropped | backend/extractor/src/main/java/com/codex/vb6/extractor/BasExtractor.java:40-62 | a routine with no later start or end line is dropped |
| FrmExtractor.FrmCallRefsSpec | backend/extractor/src/main/java/com/codex/vb6/extractor/FrmExtractor.java:64-91 | nothing for a blank or comment line; otherwise all SHOW matches in order, then all LOAD matches, then the CALLs for every call target but `Call`, all on the trimmed line |
| FrmExtractor.FrmCallRefsOrder | backend/extractor/src/main/java/com/codex/vb6/extractor/FrmExtractor.java:72-88 | the references of a line are in the order SHOW, LOAD, CALL |
| FrmExtractor.Groups | backend/extractor/src/main/java/com/codex/vb6/extractor/FrmExtractor.java:70-90 | the three groups laid end to end keep their positions, their kinds and their rank order |
| FrmExtractor.RanksInOrder | backend/extractor/src/main/java/com/codex/vb6/extractor/FrmExtractor.java:72-88 | SHOW references, then LOAD, then CALL are in rank order |
| FrmExtractor.ExtractCalls | backend/extractor/src/main/java/com/codex/vb6/extractor/FrmExtractor.java:64-91 | extractCalls, with its three loops, returns `FrmCallRefs(line)` |
| FrmExtractor.EventHeader | backend/extractor/src/main/java/com/codex/vb6/extractor/FrmExtractor.java:41-45 | a line opens an event exactly when it matches the event pattern; the event is named group 1 + `_` + group 2 |
| FrmExtractor.Analyze | backend/extractor/src/main/java/com/codex/vb6/extractor/FrmExtractor.java:24-62 | an IOException exactly when the file cannot be read; otherwise the facts of its lines |
| FrmExtractor.AnalyzeLine | backend/extractor/src/main/java/com/codex/vb6/extractor/FrmExtractor.java:33-58 | one iteration of the loop over Java's local variables performs one `Step` of the state machine |
| FrmExtractor.AnalyzeLines | backend/extractor/src/main/java/com/codex/vb6/extractor/FrmExtractor.java:26-61 | the loop returns `FormFacts(lines)` |
| FrmExtractor.FormNameIsFirst | backend/extractor/src/main/java/com/codex/vb6/extractor/FrmExtractor.java:34-39 | the form name stays null exactly when no line has `Begin VB.Form`; otherwise it comes from the first such line |
| FrmExtractor.HeaderShapes | backend/extractor/src/main/java/com/codex/vb6/extractor/FrmExtractor.java:41-43 | every event header read is a word joining two parts with `_` |
| FrmExtractor.EventNames | backend/extractor/src/main/java/com/codex/vb6/extractor/FrmExtractor.java:41-51 | every emitted event name is a word that contains `_` |
| FrmExtractor.EventsAreClosed | backend/extractor/src/main/java/com/codex/vb6/extractor/FrmExtractor.java:49-58 | the events are exactly the headers closed by a bare `End Sub` with no header or end between, each with the references of exactly the lines between |
| FrmExtractor.EventLineNumbers | backend/extractor/src/main/java/com/codex/vb6/extractor/FrmExtractor.java:44-51 | event line numbers are 1-based header lines within the file, strictly increasing |
| FrmExtractor.OpenEventDropped | backend/extractor/src/main/java/com/codex/vb6/extractor/FrmExtractor.java:41-61 | an event with no later header or end line is dropped |
| Extractors.CheckClasses | backend/extractor/src/main/java/com/codex/vb6/extractor/ProleapAstExtractor.java:27-34 | the loop passes exactly when every required class loads; otherwise it throws IllegalStateException with the source's message |
| Extractors.EnsureAstAvailable | backend/extractor/src/main/java/com/codex/vb6/extractor/ProleapAstExtractor.java:26-35 | it passes exactly when both `VB6Lexer` and `VB6Parser` can be loaded |
| Extractors.AnalyzeForm | backend/extractor/src/main/java/com/codex/vb6/extractor/ProleapAstExtractor.java:15-18 | analyzeForm runs ensureAstAvailable first, then FrmExtractor |
| Extractors.AnalyzeModule | backend/extractor/src/main/java/com/codex/vb6/extractor/ProleapAstExtractor.java:21-24 | analyzeModule runs ensureAstAvailable first, then BasExtractor |
| Extractors.AstFailsBeforeReading | backend/extractor/src/main/java/com/codex/vb6/extractor/ProleapAstExtractor.java:15-23 | without the parser class both operations throw IllegalStateException whatever the file system holds, so no file is read |
| Extractors.AstDelegates | backend/extractor/src/main/java/com/codex/vb6/extractor/ProleapAstExtractor.java:12-24 | with both classes present the AST extractor returns exactly what the regex extractor returns |
| Lists.FilterMembers | backend/extractor/src/main/java/com/codex/vb6/extractor/ProjectAnalyzer.java:29 | an element is kept exactly when it occurs in the input and passes the test |
| Lists.FilterConcat | backend/extractor/src/main/java/com/codex/vb6/extractor/ProjectAnalyzer.java:29 | filtering distributes over concatenation |
| Lists.KeyLeTransitive | backend/extractor/src/main/java/com/codex/vb6/extractor/ProjectAnalyzer.java:59-60 | the nulls-last comparator is transitive |
| Lists.SortBySorted | backend/extractor/src/main/java/com/codex/vb6/extractor/ProjectAnalyzer.java:59-61 | the sorted list is ordered by key, nulls last |
| Lists.SortByPermutes | backend/extractor/src/main/java/com/codex/vb6/extractor/ProjectAnalyzer.java:59-61 | the sorted list is a permutation of the input |
| Lists.SortByMembers | backend/extractor/src/main/java/com/codex/vb6/extractor/ProjectAnalyzer.java:59-61 | sorting neither adds nor drops an element |
| Lists.SortByStable | backend/extractor/src/main/java/com/codex/vb6/extractor/ProjectAnalyzer.java:59-61 | the sort is stable: elements with equal keys keep their input order |
| ProjectAnalyzer.VisitAppends | backend/extractor/src/main/java/com/codex/vb6/extractor/ProjectAnalyzer.java:44-56 | one entry pass appends the status, and the extracted form or module only when the entry qualifies |
| ProjectAnalyzer.VisitEntry | backend/extractor/src/main/java/com/codex/vb6/extractor/ProjectAnalyzer.java:44-56 | the body of the entry loop performs `Visit` on the entry's status |
| ProjectAnalyzer.GatherEntries | backend/extractor/src/main/java/com/codex/vb6/extractor/ProjectAnalyzer.java:43-57 | the entry loop computes `Gather` |
| ProjectAnalyzer.GatherAborts | backend/extractor/src/main/java/com/codex/vb6/extractor/ProjectAnalyzer.java:52-55 | once an extraction throws, the later entries change nothing |
| ProjectAnalyzer.AnalyzeProject | backend/extractor/src/main/java/com/codex/vb6/extractor/ProjectAnalyzer.java:36-64 | one manifest's pass: parse, gather, three sorts |
| ProjectAnalyzer.Analyze | backend/extractor/src/main/java/com/codex/vb6/extractor/ProjectAnalyzer.java:25-68 | the whole analysis computes `AnalysisOf` |
| ProjectAnalyzer.SummariesAbort | backend/extractor/src/main/java/com/codex/vb6/extractor/ProjectAnalyzer.java:35-65 | once a manifest's pass throws, the later manifests change nothing |
| ProjectAnalyzer.ManifestsAreVbpFiles | backend/extractor/src/main/java/com/codex/vb6/extractor/ProjectAnalyzer.java:27-32 | exactly the walked paths whose lower-cased text ends in `.vbp` are visited, in sorted order |
| ProjectAnalyzer.GatherRecordsEveryEntry | backend/extractor/src/main/java/com/codex/vb6/extractor/ProjectAnalyzer.java:43-46 | one status per manifest entry, in entry order, whether or not the file exists |
| ProjectAnalyzer.ExtractedEntries | backend/extractor/src/main/java/com/codex/vb6/extractor/ProjectAnalyzer.java:48-56 | an entry is extracted as a form exactly when it exists, is FORM and its relative path ends in `.frm` in any case; likewise MODULE and `.bas`; CLASS never |
| ProjectAnalyzer.GatherExtractsQualifying | backend/extractor/src/main/java/com/codex/vb6/extractor/ProjectAnalyzer.java:52-56 | the forms are the extractor's results for the qualifying statuses in entry order, and the modules likewise |
| ProjectAnalyzer.GatherCounts | backend/extractor/src/main/java/com/codex/vb6/extractor/ProjectAnalyzer.java:52-56 | at most one form per FORM entry and one module per MODULE entry |
| ProjectAnalyzer.GatherSucceeds | backend/extractor/src/main/java/com/codex/vb6/extractor/ProjectAnalyzer.java:43-57 | the entry loop completes exactly when no qualifying entry's extraction throws |
| ProjectAnalyzer.SummaryFacts | backend/extractor/src/main/java/com/codex/vb6/extractor/ProjectAnalyzer.java:36-64 | a summary holds the parsed project, one status per entry sorted by relative path and a permutation of the entries' statuses (duplicates kept), forms and modules sorted by name with nulls last, and the count bounds |
| ProjectAnalyzer.FormsFromEntries | backend/extractor/src/main/java/com/codex/vb6/extractor/ProjectAnalyzer.java:45-53 | each gathered form comes from a qualifying status whose file exists |
| ProjectAnalyzer.SummaryFormsExtracted | backend/extractor/src/main/java/com/codex/vb6/extractor/ProjectAnalyzer.java:45-59 | every form of a summary is the extractor's result for an existing FORM entry of that manifest |
| ProjectAnalyzer.SummariesPerManifest | backend/extractor/src/main/java/com/codex/vb6/extractor/ProjectAnalyzer.java:35-65 | one summary per manifest, in manifest order |
| ProjectAnalyzer.SummariesSucceed | backend/extractor/src/main/java/com/codex/vb6/extractor/ProjectAnalyzer.java:35-65 | the analysis completes exactly when every manifest's pass does |
| ProjectAnalyzer.AnalysisFacts | backend/extractor/src/main/java/com/codex/vb6/extractor/ProjectAnalyzer.java:25-68 | one project per manifest, sorted by manifest path, each the summary of a walked `.vbp` path |
| Graph.GraphModel.constructor | backend/graph/src/main/java/com/codex/vb6/graph/GraphModel.java:7-8 | a fresh model has no node and no edge |
| Graph.GraphModel.AddNode | backend/graph/src/main/java/com/codex/vb6/graph/GraphModel.java:10-12 | the node is appended even when its id is already present, so the list grows by one; edges are unchanged |
| Graph.GraphModel.AddEdge | backend/graph/src/main/java/com/codex/vb6/graph/GraphModel.java:14-16 | the edge is appended; nodes are unchanged |
| Graph.GraphModel.Nodes | backend/graph/src/main/java/com/codex/vb6/graph/GraphModel.java:18-20 | the snapshot equals the nodes in insertion order |
| Graph.GraphModel.Edges | backend/graph/src/main/java/com/codex/vb6/graph/GraphModel.java:22-24 | the snapshot equals the edges in insertion order |
| GraphBuilder.NullSafe | backend/graph/src/main/java/com/codex/vb6/graph/GraphBuilder.java:63-65 | the fallback when the value is null or blank, the value otherwise; ProjectAnalyzeCli's nullSafe (its lines 237-239) is the same function |
| GraphBuilder.NullSafeFallsBack | backend/graph/src/main/java/com/codex/vb6/graph/GraphBuilder.java:63-65 | with a non-blank fallback, as every caller passes, the result is never blank, and it is the fallback exactly for a null or blank value or the fallback itself |
| GraphBuilder.ProjectIdFallsBack | backend/graph/src/main/java/com/codex/vb6/graph/GraphBuilder.java:20 | the project id is `project:` + the name, or + the manifest path when the name is null or blank |
| GraphBuilder.AddCalls | backend/graph/src/main/java/com/codex/vb6/graph/GraphBuilder.java:33-37 | the call loop appends exactly the nodes and edges of `CallOps` to the model |
| GraphBuilder.AddEvents | backend/graph/src/main/java/com/codex/vb6/graph/GraphBuilder.java:28-38 | the event loop appends exactly those of `EventOps` |
| GraphBuilder.AddForms | backend/graph/src/main/java/com/codex/vb6/graph/GraphBuilder.java:23-39 | the form loop appends exactly those of `FormOps` |
| GraphBuilder.AddRoutines | backend/graph/src/main/java/com/codex/vb6/graph/GraphBuilder.java:46-56 | the routine loop appends exactly those of `RoutineOps` |
| GraphBuilder.AddModules | backend/graph/src/main/java/com/codex/vb6/graph/GraphBuilder.java:41-57 | the module loop appends exactly those of `ModuleOps` |
| GraphBuilder.AddProject | backend/graph/src/main/java/com/codex/vb6/graph/GraphBuilder.java:20-57 | one pass of the project loop appends exactly the calls of `ProjectStep`: the project node, then its forms', then its modules' |
| GraphBuilder.Build | backend/graph/src/main/java/com/codex/vb6/graph/GraphBuilder.java:16-61 | a fresh model holding exactly the nodes and edges of `BuildOps`, projects in input order |
| GraphBuilder.CallCounts | backend/graph/src/main/java/com/codex/vb6/graph/GraphBuilder.java:33-37 | one node and one edge per call |
| GraphBuilder.EventCounts | backend/graph/src/main/java/com/codex/vb6/graph/GraphBuilder.java:28-38 | nodes and edges per event list: the sum over events of 1 + calls |
| GraphBuilder.FormCounts | backend/graph/src/main/java/com/codex/vb6/graph/GraphBuilder.java:23-39 | nodes and edges per form list: the sum over forms of 1 + the event count |
| GraphBuilder.RoutineCounts | backend/graph/src/main/java/com/codex/vb6/graph/GraphBuilder.java:46-56 | nodes and edges per routine list: the sum over routines of 1 + calls |
| GraphBuilder.ModuleCounts | backend/graph/src/main/java/com/codex/vb6/graph/GraphBuilder.java:41-57 | nodes and edges per module list: the sum over modules of 1 + the routine count |
| GraphBuilder.BuildCounts | backend/graph/src/main/java/com/codex/vb6/graph/GraphBuilder.java:19-58 | edges = sum over forms and modules of their nested counts; nodes = projects + edges, since nothing is deduplicated |
| GraphBuilder.CallsClosed | backend/graph/src/main/java/com/codex/vb6/graph/GraphBuilder.java:33-37 | every call edge joins ids of nodes added before it |
| GraphBuilder.EventsClosed | backend/graph/src/main/java/com/codex/vb6/graph/GraphBuilder.java:28-38 | every edge of the event loop joins ids of earlier nodes |
| GraphBuilder.FormsClosed | backend/graph/src/main/java/com/codex/vb6/graph/GraphBuilder.java:23-39 | every edge of the form loop joins ids of earlier nodes |
| GraphBuilder.RoutinesClosed | backend/graph/src/main/java/com/codex/vb6/graph/GraphBuilder.java:46-56 | every edge of the routine loop joins ids of earlier nodes |
| GraphBuilder.ModulesClosed | backend/graph/src/main/java/com/codex/vb6/graph/GraphBuilder.java:41-57 | every edge of the module loop joins ids of earlier nodes |
| GraphBuilder.PartsClosed | backend/graph/src/main/java/com/codex/vb6/graph/GraphBuilder.java:23-57 | the form part followed by the module part only joins ids of earlier nodes |
| GraphBuilder.ProjectClosed | backend/graph/src/main/java/com/codex/vb6/graph/GraphBuilder.java:20-57 | one project's part only joins ids of earlier nodes, starting from its project node |
| GraphBuilder.BuildClosed | backend/graph/src/main/java/com/codex/vb6/graph/GraphBuilder.java:19-58 | in the whole graph, every edge's from-id and to-id are ids of nodes added before that edge |
| GraphBuilder.CallsWithin | backend/graph/src/main/java/com/codex/vb6/graph/GraphBuilder.java:33-37 | call-target ids are the project id + `:call:` + target, and call edges carry the call's type |
| GraphBuilder.EventsWithin | backend/graph/src/main/java/com/codex/vb6/graph/GraphBuilder.java:28-38 | the same, with `HAS_EVENT` edges |
| GraphBuilder.FormsWithin | backend/graph/src/main/java/com/codex/vb6/graph/GraphBuilder.java:23-39 | the same, with `HAS_FORM` edges; no module or routine node is added |
| GraphBuilder.RoutinesWithin | backend/graph/src/main/java/com/codex/vb6/graph/GraphBuilder.java:46-56 | the same, with edges labelled by the routine's kind |
| GraphBuilder.ModulesWithin | backend/graph/src/main/java/com/codex/vb6/graph/GraphBuilder.java:41-57 | the same, with `HAS_MODULE` edges; no form or event node is added |
| GraphBuilder.ProjectWithin | backend/graph/src/main/java/com/codex/vb6/graph/GraphBuilder.java:20-57 | every call-target id is namespaced by the project only; every edge label is `HAS_FORM`, `HAS_EVENT`, `HAS_MODULE`, a routine kind or a call type |
| GraphBuilder.FormsBeforeModules | backend/graph/src/main/java/com/codex/vb6/graph/GraphBuilder.java:23-57 | within a project, every form or event node is added before any module or routine node |
| Mermaid.Sanitize | backend/graph/src/main/java/com/codex/vb6/graph/MermaidRenderer.java:22-38 | the StringBuilder loop over the value's UTF-16 units computes `Sanitized(value)`: a character above U+FFFF, two units, becomes `__`; ProjectAnalyzeCli's sanitize (its lines 241-257) is the same function |
| Mermaid.SafeCharsShape | backend/graph/src/main/java/com/codex/vb6/graph/MermaidRenderer.java:27-36 | the result has as many characters as the value has UTF-16 units (`String.length()`) |
| Mermaid.SafeCharAt | backend/graph/src/main/java/com/codex/vb6/graph/MermaidRenderer.java:27-36 | the units of the k-th character, which start after the UTF-16 units of the characters before it, are replaced by that character made safe |
| Mermaid.SanitizeKeepsWordChars | backend/graph/src/main/java/com/codex/vb6/graph/MermaidRenderer.java:27-36 | for non-blank input, the length in UTF-16 units is kept (the length in characters too when no character is above U+FFFF); a character stays exactly when it is in `[A-Za-z0-9_]`, and otherwise each of its units becomes `_` |
| Mermaid.SanitizeSurrogatePair | backend/graph/src/main/java/com/codex/vb6/graph/MermaidRenderer.java:28-35 | `a😀b` becomes `a__b`: each half of the surrogate pair is written as `_` |
| Mermaid.SanitizedIsWord | backend/graph/src/main/java/com/codex/vb6/graph/MermaidRenderer.java:23-37 | the output is non-empty and holds only `[A-Za-z0-9_]` |
| Mermaid.SanitizeFixesWords | backend/graph/src/main/java/com/codex/vb6/graph/MermaidRenderer.java:27-37 | a non-empty word is returned unchanged |
| Mermaid.SanitizeIdempotent | backend/graph/src/main/java/com/codex/vb6/graph/MermaidRenderer.java:22-38 | sanitizing twice is sanitizing once |
| Mermaid.Render | backend/graph/src/main/java/com/codex/vb6/graph/MermaidRenderer.java:7-20 | the StringBuilder loop over the model's edges computes `Rendered(model.edges)` |
| Mermaid.WriteEdge | backend/graph/src/main/java/com/codex/vb6/graph/MermaidRenderer.java:13-15 | the appends for one edge write its `EdgeLine` |
| Mermaid.RenderedLayout | backend/graph/src/main/java/com/codex/vb6/graph/MermaidRenderer.java:9-18 | the output is the header, one line per edge in edge order, and the footer; it starts with the mermaid fence and `graph TD` and ends with the closing fence |
| Mermaid.ChartLayout | backend/graph/src/main/java/com/codex/vb6/graph/MermaidRenderer.java:9-16 | the chart is the header followed by the edge lines in order |
| Mermaid.EdgeLineBreaks | backend/graph/src/main/java/com/codex/vb6/graph/MermaidRenderer.java:13-15 | an edge whose label has no newline writes exactly one line |
| Mermaid.ChartLineCount | backend/graph/src/main/java/com/codex/vb6/graph/MermaidRenderer.java:9-16 | the chart has the header's lines plus one per edge |
| Mermaid.RenderedLineCount | backend/graph/src/main/java/com/codex/vb6/graph/MermaidRenderer.java:7-20 | the rendering has the empty rendering's lines plus exactly one per edge |
| Mermaid.ReadArrowed | backend/graph/src/main/java/com/codex/vb6/graph/MermaidRenderer.java:13-15 | an arrow line with a word source and a label without a vertical bar reads back as its three parts |
| Mermaid.ReadLineInverts | backend/graph/src/main/java/com/codex/vb6/graph/MermaidRenderer.java:13-15 | each edge line reads back as the sanitized from-id, the label and the sanitized to-id |
| Cli.EscapedIsEach | backend/cli/src/main/java/com/codex/vb6/cli/ProjectAnalyzeCli.java:231-233 | the two replacements, backslashes first, escape each character independently |
| Cli.EscapedEachLength | backend/cli/src/main/java/com/codex/vb6/cli/ProjectAnalyzeCli.java:231-233 | the escaped length is the length plus the number of backslashes and quotes |
| Cli.JsonStringLength | backend/cli/src/main/java/com/codex/vb6/cli/ProjectAnalyzeCli.java:227-234 | jsonString's length is the length + 2 + backslashes + quotes |
| Cli.ReadBodyOf | backend/cli/src/main/java/com/codex/vb6/cli/ProjectAnalyzeCli.java:231-233 | decoding `\\` and `\"` up to the closing quote recovers the value and leaves what follows |
| Cli.JsonStringReadsBack | backend/cli/src/main/java/com/codex/vb6/cli/ProjectAnalyzeCli.java:227-234 | reading a quoted string back from `jsonString(v)` + anything recovers `v` and the rest |
| Cli.ModeIs | backend/cli/src/main/java/com/codex/vb6/cli/ProjectAnalyzeCli.java:50-53 | the mode is `m` exactly when the trimmed, lower-cased argument is `m` or `--parser=` + `m` |
| Cli.ParseExtractorModes | backend/cli/src/main/java/com/codex/vb6/cli/ProjectAnalyzeCli.java:46-59 | `ast` / `--parser=ast` select AST, `regex` / `--parser=regex` select regex, in any case and padding; anything else throws IllegalArgumentException quoting the argument |
| Cli.ParseExtractorDefault | backend/cli/src/main/java/com/codex/vb6/cli/ProjectAnalyzeCli.java:47-49 | a null or blank argument selects the regex extractor |
| WikiOutline.CollectCommentBlock | wiki_tools.py:47-65 | the walk, reversal and join compute `CommentBlock(lines, startIndex)` |
| WikiOutline.WalkUp | wiki_tools.py:48-63 | the upward walk collects, bottom to top, the reverse of `Block` |
| WikiOutline.CommentBlockBeforeFirstLine | wiki_tools.py:50 | a start index below 0 gives the empty string |
| WikiOutline.BlockIsRun | wiki_tools.py:50-64 | the block is the comment texts of the contiguous comment/blank run ending at the start line and bounded above by a code line or the top, in top-to-bottom order |
| WikiOutline.ApostropheText | wiki_tools.py:51-55 | an apostrophe comment loses every leading apostrophe, then is stripped |
| WikiOutline.GetFileStructure | wiki_tools.py:68-90 | FileNotFoundError for a missing file; otherwise the outline of its lines |
| WikiOutline.MatchHeader | wiki_tools.py:82-84 | the header pattern's outcome on one line |
| WikiOutline.HeaderLinesExact | wiki_tools.py:81-84 | the header indices are exactly the lines the pattern matches |
| WikiOutline.HeaderLinesIncrease | wiki_tools.py:81 | the header indices increase |
| WikiOutline.OutlineFollowsHeaders | wiki_tools.py:81-89 | one entry per header line, in line order, each with the comment block of the line above |
| WikiOutline.ReadFunctionCode | wiki_tools.py:93-116 | FileNotFoundError for a missing file, ValueError when nothing is captured, otherwise the captured lines joined by newlines |
| WikiOutline.CaptureLines | wiki_tools.py:105-113 | the `capturing` loop computes `Captured(lines, funcName)` |
| WikiOutline.CaptureBy | wiki_tools.py:105-113 | the loop over given verdicts computes `CapturedBy` |
| WikiOutline.CapturedByShape | wiki_tools.py:105-115 | nothing is captured exactly when no header matches; otherwise a contiguous slice from the first matching header through the first end line, or through the last line |
| WikiManifest.PrefixShape | wiki_tools.py:9 | each reference prefix ends in its only `=` and holds no `;` |
| WikiManifest.StartsWithAnyOf | wiki_tools.py:35 | `startswith` on a tuple holds when any one prefix matches |
| WikiManifest.ReferenceHoldsEquals | wiki_tools.py:35-36 | a line that starts with a reference prefix holds `=`, so the split succeeds |
| WikiManifest.ReadReference | wiki_tools.py:32-43 | the loop body's verdict on one line is that line's reference |
| WikiManifest.ReferenceOfPrefixed | wiki_tools.py:35-36 | the value of a prefixed line is the text after its prefix |
| WikiManifest.ReferenceAfterSemicolon | wiki_tools.py:36-43 | with a `;`, the reference is the stripped text after the first `;`, none when it is empty |
| WikiManifest.ReferenceInSplit | wiki_tools.py:37-42 | a value with a `;` refers to the stripped text after the first `;` |
| WikiManifest.ReferenceWithoutSemicolon | wiki_tools.py:39-43 | without a `;`, the reference is the stripped value, none when it is empty |
| WikiManifest.ReferenceNeedsPrefix | wiki_tools.py:32-42 | only lines starting with a prefix contribute, and every reference is non-empty and stripped |
| WikiManifest.GetProjectFileList | wiki_tools.py:25-44 | FileNotFoundError for a missing manifest; otherwise the resolved references of its lines |
| WikiManifest.ListFiles | wiki_tools.py:30-44 | the line loop computes `FileList` |
| WikiManifest.FileListAppend | wiki_tools.py:31-44 | the files follow line order: those of later lines come after those of earlier lines |
| WikiManifest.FileListMembers | wiki_tools.py:31-44 | a file is listed exactly when some line refers to it, resolved against the manifest's directory |
| WikiManifest.MissingProject | wiki_tools.py:28-29 | a missing manifest raises FileNotFoundError with the source's message |
| WikiManifest.StemOfProjectFile | wiki_tools.py:21 | the stem of `dir/base.vbp` is `base` |
| WikiManifest.ProjectsAt | wiki_tools.py:20-21 | each project is named by the stem of its path |
| WikiManifest.GetAllProjects | wiki_tools.py:16-22 | the loop computes `AllProjects` |
| WikiManifest.AllProjectsSpec | wiki_tools.py:16-22 | one project per found manifest, named by its stem, in path order, a permutation of what was found |
| WikiManifest.BuildProjectStructure | wiki_tools.py:140-156 | the loop computes `ProjectStructure` |
| WikiManifest.IndexFiles | wiki_tools.py:150-151 | the `setdefault(...).append` loop computes `Indexed` |
| WikiManifest.AssembleStep | wiki_tools.py:149-151 | one project overwrites its name's structure entry and appends its name to each of its files' lists |
| WikiManifest.ListingsAbort | wiki_tools.py:146-148 | once a manifest fails, the later projects change nothing |
| WikiManifest.ListingsOk | wiki_tools.py:146-148 | the build completes exactly when every project's file list does |
| WikiManifest.ListingsValues | wiki_tools.py:146-149 | one listing per project, in order, with that project's files |
| WikiManifest.ListingsFirstError | wiki_tools.py:146-148 | a failed build raises the first failing project's exception |
| WikiManifest.StructureKeys | wiki_tools.py:146-149 | the structure's keys are the project names |
| WikiManifest.StructureLastWins | wiki_tools.py:149 | a project's structure entry is that of the last project with the same stem |
| WikiManifest.IndexedLookup | wiki_tools.py:150-151 | indexing a project adds its name to a file's list once per occurrence of the file |
| WikiManifest.IndexedKeys | wiki_tools.py:150-151 | indexing adds exactly the project's files as keys |
| WikiManifest.FileIndexLookup | wiki_tools.py:146-151 | each file's list is the names of the projects that list it, in project order, once per listing |
| WikiManifest.FileIndexKeys | wiki_tools.py:146-151 | a file is indexed exactly when some project lists it |
| WikiManifest.ReferrersMembers | wiki_tools.py:146-151 | a name is in a file's list exactly when a project of that name lists the file |

## Left out

- Character decoding is not modelled. The Java side reads Big5 with `Files.readAllLines`; the Python side reads UTF-8 with `read_text(errors="ignore")`. Files come in as already decoded lines (`FileSystem.contents`).
- Line splitting is not modelled. `readAllLines` and `splitlines` split on slightly different characters, and both are taken as given.
- An unreadable file is one `IoError`. This stands for Java's IOException and Python's OSError alike; only the missing-file checks the source makes itself give FileNotFoundError.
- Directory walking is an input, not modelled. `Files.walk` and `rglob("*.vbp")` become a sequence of found paths.
- Path arithmetic is abstract. `Files.exists`, `Path.getParent`, `Path.resolve(...).normalize()` and Python's `Path.resolve` are the `existing`, `parent` and `resolve` fields of `FileSystem`, not the operating system's rules.
- `build_project_structure`'s `root.resolve()` is an input.
- Java path ordering is simplified. The walk's `.sorted()` (ProjectAnalyzer.java:30) compares `Path` objects, which on Unix compares their encoded bytes; the form and module sorts (lines 59-60) and the entry and project sorts (lines 61 and 67) compare Strings by UTF-16 units. The model (`ProjectAnalyzer.PathKey`, `FormKey`, `ModuleKey`, `EntryKey`, `SummaryKey`) compares the text by code points in every case; the orders agree on text without characters above U+FFFF, and for the walk on ASCII paths.
- Python path ordering is approximated. `get_all_projects` sorts paths part by part; the model compares the text with `/` ranked below every other character (`WikiManifest.PartsKey`), which agrees when no path holds a NUL character.
- Case folding is ASCII only. Locale/Unicode case mapping (`toLowerCase`, `toUpperCase`, `equalsIgnoreCase`, `CASE_INSENSITIVE`, `re.IGNORECASE`, `str.lower`) is not modelled beyond ASCII.
- Regex classes on the Java side (BasExtractor, FrmExtractor) are ASCII, as java.util.regex has them without UNICODE_CHARACTER_CLASS: `\w`, `\b` and `\s` (`Text.IsRegexSpace`). On the Python side (wiki_tools.py) `\s` is Unicode whitespace (`Text.IsPySpace`), as in `re` on `str`, but the `\b` of read_function_code's start and end patterns (wiki_tools.py:101, 104) is taken over `[A-Za-z0-9_]`, whereas Python counts every Unicode letter and digit as a word character.
- The Vb6Extractor interface is a datatype (`Extractors.Extractor`) with one case per implementation, not an open interface.
- Class loading is an input: `Class.forName` becomes a set of loadable class names.
- `List.sort` is defined as a stable insertion sort. Java's algorithm is not modelled, only the stable result it must produce.
- `List.copyOf` snapshots and immutable lists are Dafny values; nothing models the copying.
- `currentKind` in `BasExtractor.analyze` is not a separate variable. It is set and cleared together with `currentRoutine`, so it is part of the open block.
- `WikiOutline.CaptureLines` passes the start and end patterns' verdicts on every line (`Opens`, `Ends`) to the capturing loop rather than matching inside it; the outcome is the same. `WikiManifest.ListFiles` and `WikiOutline.GetFileStructure` match each line inside their loops.
- `Cli.JsonString` escapes only backslash and double quote, as the source does. Control characters pass through unescaped, so the output is not always valid JSON.
- JSON writing is not modelled: `json.dumps`, the `output_path` file and dict insertion order are left out. `WikiManifest.Payload` holds maps.
- The `ProjectAnalyzeCli` parts outside its helpers are not part of this model: `main`, `writeFile`, `toJson`, `toMarkdown`, `renderFormMermaid`. They handle arguments, write files and format the report over facts already computed.
- `search_codebase` and `_iter_vbp_paths` in wiki_tools.py are not part of this model.
- The per-tool CLIs, the web backend and the frontend are not part of this model.
