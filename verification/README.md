# fastdeps in Dafny

A model of the core of **fastdeps**, a Python dependency analyser. fastdeps scans a project for `.py` files and extracts their import records. It then resolves each import to a project file, or classifies it as standard-library or external, and folds the results into a dependency graph. That graph feeds cycle detection, statistics, a dictionary and Graphviz DOT output, and an import-path search.

The model is functional. Paths are sequences of segments, the graph is an immutable value, and every mutator returns a new graph. The dictionaries whose insertion order Python preserves are ordered maps (`Dicts.Dict`: a key sequence plus a map).

Modules, in pipeline order:

- `Wrappers`, `Strings`, `Paths`, `Dicts`: the option/result types; `str.split`/`str.join` and friends; paths as segment sequences with `relative_to`, `parent`, `suffix` and `str()`; ordered dictionaries.
- `Imports`: the `Import` record of `fastdeps/parser.py`.
- `Scanner`: `find_python_files`, a worklist walk over an abstract directory tree.
- `Parallel`: `process_chunk`, plus the chunking and merging of `ParallelProcessor.process_files`. The process pool is a sequential fold over chunks. The completion order and the set of failing chunks are parameters.
- `Resolver`: `_path_to_module`, the module index built from a given walk, and the absolute and relative resolution cascades. `is_external` is here too. `ResolverCascade` restates absolute resolution as the first hit over an ordered list of candidate keys.
- `Graphs`: `Node`, `DependencyGraph` and its three mutators, with the mirror invariant `Graphs.Valid`.
- `Reach`, `TarjanInv`, `Tarjan`, `Cycles`: reachability, then `find_cycles` (Tarjan's strongly-connected-components algorithm) and `_is_real_cycle`.
- `Stats`: `get_stats`.
- `GraphDicts`: `to_dict`.
- `Analyzer`: target and root selection, and the graph-building loop of `DependencyAnalyzer.analyze`.
- `Dot`: `GraphRenderer.to_dot`.
- `Trace`: the breadth-first path search of the `trace_imports` tool.
- `*Examples` modules and `ResolverTests`: the unit tests' fixtures, with what the model proves about them.

The model follows the code as written where it behaves unexpectedly. The doc comments of `Resolver.InitForm`, `Resolver.ResolveRelative` and `Cycles.ComponentIsRealCycle` name those places, and "## Findings" lists the one place where the code fails.

## Model

| member | source | states |
|---|---|---|
| Analyzer.Workers | fastdeps/parallel.py:34-39 | never zero: the requested count when it is non-zero, the CPU count otherwise. The result is below 1 exactly when a negative count was requested |
| Analyzer.SelectFiles | fastdeps/analyzer.py:41-55 | fails exactly when the target is missing, with `FileNotFoundError` for it. A file target analyses only itself with its parent as root. A directory target is its own root and yields exactly the paths below it that the scanner's `Found` relation admits under the default or given exclusions |
| Analyzer.SelectFilesAsWritten | fastdeps/analyzer.py:47-55 | as written, only a file target succeeds; every directory target fails with `TypeError`, because `find_python_files` gets a third argument it does not accept |
| Analyzer.DirectoryTargetRaises | fastdeps/analyzer.py:53 | a directory holding `app.py` has that file to report, yet the as-written selection raises `TypeError` on it |
| Analyzer.ImportName | fastdeps/analyzer.py:77-84 | an absolute import resolves its module name. A relative import with no module uses its first imported name. Otherwise the module name is used |
| Analyzer.Resolved | fastdeps/analyzer.py:76-84 | whatever an import resolves to is a file of the module index |
| Analyzer.ExternalOf | fastdeps/analyzer.py:89-92 | an external entry exists only when `internal_only` is off and the import did not resolve. Its name is the import's own non-empty module name, whose top-level segment is not stdlib and which is not indexed directly or in `__init__` form |
| Analyzer.AddRecord | fastdeps/analyzer.py:76-92 | one import adds at most the edge file → resolved file, with its mirror, or one external name on the file; nothing else in the graph changes |
| Analyzer.AddRecords | fastdeps/analyzer.py:76-92 | after a file's imports are folded in, its edges are exactly the previous ones plus one per import that resolves, and its externals are the previous ones plus those the imports report |
| Analyzer.AddFiles | fastdeps/analyzer.py:71-92 | after the per-file loop: every file is a node, and the edges and externals are exactly those its import records produce |
| Analyzer.RecordOrder | fastdeps/analyzer.py:86-88 | one import record appends its resolved file to the node order when that file is new, and otherwise leaves the order alone |
| Analyzer.RecordsOrder | fastdeps/analyzer.py:76-92 | the inner loop appends the new resolved files in import order |
| Analyzer.FilesOrder | fastdeps/analyzer.py:71-92 | the outer loop writes each file and then its resolved files, and a path joins the node order the first time it is written |
| Analyzer.BuildGraphOrder | fastdeps/analyzer.py:68-92 | the built graph's node order is first-write order over the record dictionary: each file in dictionary order, followed by the files its imports resolve to |
| Analyzer.BuildGraph | fastdeps/analyzer.py:68-92 | the graph's root is recorded. Every file in the extraction result is a node, even one with no imports. The other nodes are exactly the resolved targets. Edges and externals are exactly those the records produce |
| Analyzer.BuildGraphExternals | fastdeps/analyzer.py:89-92 | an external name in the built graph implies `internal_only` was off; the name is non-empty, not stdlib and not indexed |
| Analyzer.BuildGraphTargetsIndexed | fastdeps/analyzer.py:86-88 | every edge of the built graph ends at an indexed project file |
| Analyzer.AddRecordValid | fastdeps/analyzer.py:86-92 | folding in one import keeps the mirror invariant |
| Analyzer.AddRecordsValid | fastdeps/analyzer.py:76-92 | folding in one file's imports keeps the mirror invariant |
| Analyzer.AddFilesValid | fastdeps/analyzer.py:71-92 | the whole loop keeps the mirror invariant |
| Analyzer.BuildGraphValid | fastdeps/analyzer.py:68-92 | the built graph satisfies the mirror invariant |
| Analyzer.Analyze | fastdeps/analyzer.py:41-92 | `FileNotFoundError` for a missing target, and `ValueError` from the pool for a negative worker request with more than 3 selected files; no other failure. Otherwise the selected files all get import records (extracted or degraded to empty), and the result is the graph built from those records over the index of the chosen root. It satisfies the mirror invariant, contains every selected file, and orders its nodes by first write in the loop |
| Scanner.FindPythonFiles | fastdeps/parser.py:107-138 | a path is returned iff it lies below the root and `Found` admits it. `Found` means: a file ending in `.py`, reached only through listable, non-symlinked directories, with no hidden directory and no excluded name on the way. When no directory lists a name twice (`TidyListing`), no path is returned twice |
| Scanner.FoundIsPython | fastdeps/parser.py:130-131 | every reported path is non-empty and its last segment ends in `.py` |
| Scanner.FoundAvoidsSkipped | fastdeps/parser.py:124-128 | no segment of a reported path is an excluded name, and no directory on it starts with `.` |
| Scanner.ReachedFound | fastdeps/parser.py:118-133 | a file found below a directory the walk enters is found from the root |
| Scanner.ReachedChild | fastdeps/parser.py:132-133 | a non-symlinked, non-skipped subdirectory of an entered directory is entered too |
| Scanner.ApartFile | fastdeps/parser.py:130-131 | in a directory whose names are unique, reporting a `.py` entry never repeats a reported path, and leaves the later entries and the pending directories apart from every reported path |
| Scanner.NothingBelowUnlisted | fastdeps/parser.py:134-136 | a directory that cannot be listed hides nothing the walk owes, so dropping it keeps the walk complete |
| ScannerExamples.SingleFileFound | fastdeps/parser.py:130-131 | a listing with one `.py` file reports exactly that file |
| ScannerExamples.FlatFound | tests/test_parser.py:174-185 | the flat fixture reports exactly `a.py` and `b.py` |
| ScannerExamples.NestedFound | tests/test_parser.py:187-196 | the nested fixture reports exactly `main.py` and `sub/module.py` |
| ScannerExamples.CachesFound | tests/test_parser.py:198-214 | with the default exclusions, only `main.py` is found, not the files under `__pycache__` or `.git` |
| ScannerExamples.VenvFound | tests/test_parser.py:216-227 | with the default exclusions, only `app.py` is found, not the file under `venv` |
| ScannerExamples.GuardedFound | fastdeps/parser.py:124-136 | a hidden file is still reported. Files under a link to a directory, a hidden directory or an unlistable directory are not |
| ScannerExamples.FindOnSimpleTest | tests/test_parser.py:174-185 | the walk over the flat fixture returns two paths, `a.py` and `b.py` |
| ScannerExamples.FindOnNestedTest | tests/test_parser.py:187-196 | the walk over the nested fixture returns two paths, `main.py` and `sub/module.py` |
| ScannerExamples.FindOnExcludeTest | tests/test_parser.py:198-214 | the walk over the fixture returns exactly `[main.py]` |
| ScannerExamples.FindOnVenvTest | tests/test_parser.py:216-227 | the walk over the fixture returns exactly `[app.py]` |
| Parallel.ProcessChunk | fastdeps/parallel.py:12-28 | every input file gets exactly one key, mapped to its extraction result, or to `[]` when extraction raises; for distinct inputs the key order is the input order |
| Parallel.FloorDiv | fastdeps/parallel.py:55 | Python's `//`: the quotient rounded toward negative infinity, for either sign of the divisor |
| Parallel.FloorDivOfNat | fastdeps/parallel.py:55 | the floor quotient of a count is at most the count, and at most 0 for a negative divisor |
| Parallel.ChunkSize | fastdeps/parallel.py:55 | the chunk size is at least 1 and never more than the number of files. It is 1 for a negative worker count |
| Parallel.MakeChunks | fastdeps/parallel.py:56-58 | the chunks concatenate back to the input. Each is non-empty and at most the chunk size; all but the last are full. There are ceil(n/size) of them, chunk k being the slice from k·size |
| Parallel.ChunkLengths | fastdeps/parallel.py:57-58 | slices taken at multiples of the size are non-empty, at most the size long, and full except the last |
| Parallel.MarkFailed | fastdeps/parallel.py:73-77 | a failed chunk maps each of its files to `[]` and leaves every other entry unchanged |
| Parallel.MergeChunk | fastdeps/parallel.py:69-77 | merging one chunk sets its files to their outcome, or to `[]` if the chunk failed, and changes nothing else |
| Parallel.MergeAll | fastdeps/parallel.py:69-77 | the merge over any completion order leaves every merged file's value as set by its chunk |
| Parallel.MergedKeys | fastdeps/parallel.py:63-79 | whatever the completion order, the merged key set is exactly the input file set |
| Parallel.CompletedOnce | fastdeps/parallel.py:65-69 | every file belongs to some completed chunk |
| Parallel.NoFailureSequential | fastdeps/parallel.py:41-79 | with no failing chunk, the parallel result equals the sequential `process_chunk` of all files |
| Parallel.ValuesEither | fastdeps/parallel.py:69-77 | every merged value is the file's extraction result or `[]`; with no failures it is always the extraction result |
| Parallel.ValuesByChunk | fastdeps/parallel.py:54-77 | for distinct files, each file's value is decided by the one chunk that holds it |
| Parallel.OneChunk | fastdeps/parallel.py:57-58 | a file among distinct inputs lies in exactly one chunk |
| Parallel.ProcessFiles | fastdeps/parallel.py:41-79 | empty input gives an empty map. Up to 3 files give `process_chunk` of them. The pool raises `ValueError` exactly when there are more than 3 files and fewer than 1 worker. Otherwise the keys are exactly the input files, each value is the extraction result or `[]`, and without failures the result equals the sequential one |
| Parallel.ProcessInChunks | fastdeps/parallel.py:54-79 | the chunked path covers every file and degrades exactly the files of failed chunks |
| Resolver.PackageInitKey | fastdeps/resolver.py:57-70 | `dir/__init__.py` is keyed by the dotted directory name; a root `__init__.py` is keyed `""` |
| Resolver.ModuleKey | fastdeps/resolver.py:57-70 | `dir/stem.py` is keyed by the dotted directory name followed by the stem |
| Resolver.FileIndexSound | fastdeps/resolver.py:35-55 | every index entry comes from a walked `.py` file whose module name is the key |
| Resolver.FileIndexComplete | fastdeps/resolver.py:44-52 | every walked `.py` file's module name is a key of the index |
| Resolver.FileIndexLastWins | fastdeps/resolver.py:52 | when module names clash, the file walked last owns the key |
| Resolver.PackageDirs | fastdeps/resolver.py:40-42 | the package directories are exactly the walked directories holding an `__init__.py` |
| Resolver.BuildIndex | fastdeps/resolver.py:25-55 | the index of a root holds the file index and package directories of its walk |
| Resolver.LookupModule | fastdeps/resolver.py:114-121 | a lookup hits iff the name or its `.__init__` form is a key; a direct key wins; every hit is an indexed file |
| Resolver.NearbyLookup | fastdeps/resolver.py:123-152 | the sibling and grandparent lookups only ever return indexed files |
| Resolver.PrefixLookup | fastdeps/resolver.py:154-165 | returns the entry of the longest proper dotted prefix that is indexed, and None iff no such prefix exists |
| Resolver.ResolveAbsolute | fastdeps/resolver.py:92-165 | None for an empty name and for a stdlib top-level segment, even if a project file has that name. The root-name-stripped lookup wins when it hits; otherwise an exact index hit wins. Any indexed name resolves, and every result is an indexed file |
| Resolver.ResolveRelative | fastdeps/resolver.py:167-211 | None for an importer outside the root and for a level deeper than the package depth + 1. Otherwise it is the index entry of the importer's directory, minus level − 1 trailing segments, plus the name's segments |
| Resolver.ResolveImport | fastdeps/resolver.py:72-90 | every non-None result is a value of the file index; an absolute import of an empty or stdlib name is None |
| Resolver.IsExternal | fastdeps/resolver.py:213-232 | true iff the name is non-empty, its top-level segment is not stdlib, and neither it nor its `.__init__` form is indexed |
| ResolverCascade.ResolveAbsoluteIsFirstHit | fastdeps/resolver.py:102-165 | absolute resolution equals the first hit over the candidate list: root-stripped, direct, sibling, grandparent, then prefixes longest first |
| ResolverCascade.UnresolvedIsExternal | fastdeps/resolver.py:92-232 | for a non-empty, non-stdlib name, failing to resolve implies `is_external`, and an internal name always resolves |
| ResolverExamples.IndexKeys | tests/test_resolver.py:18-40 | the fixture's index maps exactly `main`, `mypackage`, `mypackage.module`, `mypackage.subpkg`, `mypackage.subpkg.helper`, `utils` and `utils.common` to their files |
| ResolverTests.ResolvesMain | tests/test_resolver.py:41-44 | `main` resolves to `main.py` |
| ResolverTests.ResolvesPackage | tests/test_resolver.py:46-50 | `mypackage` resolves to its `__init__.py` |
| ResolverTests.ResolvesDotted | tests/test_resolver.py:52-56 | `mypackage.module` resolves to its file |
| ResolverTests.ResolvesSubpackage | tests/test_resolver.py:58-63 | `mypackage.subpkg` resolves to `mypackage/subpkg/__init__.py` |
| ResolverTests.ResolvesNested | tests/test_resolver.py:65-70 | `mypackage.subpkg.helper` resolves to its own file |
| ResolverTests.StdlibUnresolved | tests/test_resolver.py:72-78 | `os` and `os.path` resolve to nothing |
| ResolverTests.UnknownUnresolved | tests/test_resolver.py:80-83 | `numpy` resolves to nothing |
| ResolverTests.RelativeSibling | tests/test_resolver.py:85-90 | `from . import module` inside `mypackage` resolves to `mypackage/module.py` |
| ResolverTests.RelativeParentPackage | tests/test_resolver.py:92-97 | a level-2 import with an empty name from `mypackage/subpkg` resolves to `mypackage/__init__.py` |
| ResolverTests.RelativeBeyondPackage | tests/test_resolver.py:99-104 | `from ..utils import common` in `mypackage` resolves to `utils/common.py` |
| ResolverTests.ExternalNames | tests/test_resolver.py:106-110 | `os`, `main` and `mypackage` are not external |
| ResolverTests.ExternalRequests | tests/test_resolver.py:111 | `requests` is external |
| ResolverTests.ExternalNumpy | tests/test_resolver.py:112 | `numpy` is external |
| ResolverTests.IndexBuilt | tests/test_resolver.py:121-135 | indexing `app.py`, `pkg/__init__.py` and `pkg/mod.py` gives exactly the keys `app`, `pkg` and `pkg.mod` |
| ResolverTests.PackagesDetected | tests/test_resolver.py:137-152 | a directory with an `__init__.py` is a package; one with only `module.py` is not |
| Dicts.PutKeys | fastdeps/graph.py:27-28 | writing a key to a dictionary moves its key order as one write does: a new key goes to the end, a present one keeps its place |
| Dicts.KeysAfterFacts | fastdeps/graph.py:27-28 | after a run of writes the earlier keys stay in front, the keys are exactly the old ones plus the written ones, and none is listed twice |
| Dicts.KeysAfterConcat | fastdeps/graph.py:27-28 | two runs of writes order the keys as one run of both |
| Graphs.EmptyGraph | fastdeps/graph.py:21-23 | a new graph has no nodes and no root, and satisfies the mirror invariant |
| Graphs.AddFile | fastdeps/graph.py:25-28 | an existing file leaves the graph unchanged. A new file is appended in insertion order with three empty sets. No edge or external changes |
| Graphs.AddDependency | fastdeps/graph.py:25-38 | both endpoints become nodes, appended to the node order when new: `from` first, then `to` unless it is `from`. The edges become the old ones plus from → to, with the mirror entry; externals are untouched |
| Graphs.AddExternal | fastdeps/graph.py:40-43 | the file becomes a node, appended to the node order when new, and gains the external name; no edge set changes |
| Graphs.AddFileValid | fastdeps/graph.py:25-28 | `add_file` keeps the invariant: every node is stored under its path, every neighbour is a node, and `imported_by` mirrors `imports` |
| Graphs.AddDependencyValid | fastdeps/graph.py:30-38 | `add_dependency` keeps that invariant |
| Graphs.AddExternalValid | fastdeps/graph.py:40-43 | `add_external` keeps that invariant |
| Graphs.AddDependencyIdempotent | fastdeps/graph.py:30-38 | a second identical `add_dependency` changes nothing |
| Graphs.AddExternalIdempotent | fastdeps/graph.py:40-43 | a second identical `add_external` changes nothing |
| Graphs.AddDependencySucc | fastdeps/graph.py:30-38 | the successors after `add_dependency(a, b)` are the old successors plus b for a |
| Tarjan.StrongConnect | fastdeps/graph.py:58-92 | one `strongconnect` call numbers the node and keeps the search invariant. A node left on the stack has a lower lowlink and an active path back below itself. A node it roots leaves the stack as found |
| Tarjan.PopComponent | fastdeps/graph.py:79-92 | popping a root's component restores the stack below the root and keeps every reported cycle sound, maximal and disjoint |
| Tarjan.ComponentReal | fastdeps/graph.py:88-92 | every popped component of two or more files passes the real-cycle check |
| Tarjan.FindCycles | fastdeps/graph.py:45-99 | every reported cycle has at least 2 distinct, mutually reachable files and is a whole strongly connected class. Cycles are pairwise disjoint, and every file that shares a cycle with another is reported |
| Tarjan.ReportUnique | fastdeps/graph.py:45-99 | any two reports satisfying that contract list the same cycles as sets, whatever the node order |
| Tarjan.ReportCyclic | fastdeps/graph.py:88-92 | a file appears in a report iff it is mutually reachable with some other file, so a self-import alone reports nothing |
| Tarjan.ReportMaximal | fastdeps/graph.py:79-86 | a reported cycle contains everything mutually reachable with its members |
| Tarjan.ReportDisjoint | fastdeps/graph.py:79-86 | no file is in two reported cycles |
| Cycles.SearchBack | fastdeps/graph.py:104-119 | one breadth-first search succeeds iff the start is imported by a different file reachable from it inside the component |
| Cycles.IsRealCycle | fastdeps/graph.py:101-121 | true iff some member is imported by another file that it reaches inside the component |
| Cycles.ComponentIsRealCycle | fastdeps/graph.py:88-92 | a component of two or more mutually reachable files, closed under mutual reachability, always passes `_is_real_cycle` |
| CycleExamples.TwoCycleReport | tests/test_graph.py:46-58 | A→B→A reports exactly one cycle, {A, B} |
| CycleExamples.ThreeCycleReport | tests/test_graph.py:60-74 | A→B→C→A reports exactly one cycle, {A, B, C} |
| CycleExamples.ChainReport | tests/test_graph.py:76-88 | the chain A→B→C reports no cycle |
| CycleExamples.TwoCyclesReport | tests/test_graph.py:90-106 | two disjoint 2-cycles report exactly two cycles, {A, B} and {C, D} |
| CycleExamples.SelfImportReport | tests/test_graph.py:108-116 | a self-import reports no cycle |
| CycleExamples.FindCyclesOnTests | tests/test_graph.py:46-116 | the modelled `find_cycles`, applied to the five fixtures, returns the reports above |
| Stats.DependenciesCountEdges | fastdeps/graph.py:126 | the sum of the `imports` sizes is the number of distinct edges |
| Stats.ExternalCountsPairs | fastdeps/graph.py:127-128 | the sum of the `external_imports` sizes is the number of (file, external) pairs |
| Stats.ImportersMirror | fastdeps/graph.py:131-134 | in a valid graph, the files whose `imports` contain q are exactly q's `imported_by` |
| Stats.ImportCounts | fastdeps/graph.py:131-134 | the counter's keys are exactly the imported files, and each count is the number of its importers |
| Stats.SortByCount | fastdeps/graph.py:136-142 | a stable sort: the same length, non-increasing counts, and the same entries for each count in their original order |
| Stats.Rank | fastdeps/graph.py:136-142 | the first min(5, n) entries: non-increasing, drawn from the input, and including every entry with a count above the last one kept |
| Stats.TopFacts | fastdeps/graph.py:136-137 | any prefix of the sorted list is ordered, drawn from the input, and complete above its last count |
| Stats.RankComplete | fastdeps/graph.py:136-137 | an entry with a count above the last ranked count is ranked |
| Stats.MostImported | fastdeps/graph.py:130-137 | at most 5 distinct imported files, most imported first, each with its true importer count, and no omitted file imported more often than the last one listed |
| Stats.MostImports | fastdeps/graph.py:139-142 | at most 5 distinct nodes, in non-increasing order of their number of imports, with their true import counts, and complete above the last count |
| Stats.ReportCount | fastdeps/graph.py:148 | any cycle report has exactly one entry per mutual-reachability class of two or more files |
| Stats.GetStats | fastdeps/graph.py:123-151 | `total_files` is the number of nodes, `total_dependencies` the number of edges, and `total_external` the number of external pairs. `cycles` is the number of multi-file strongly connected classes. The two top-5 lists are as above |
| StatsExamples.StatsMostImported | tests/test_graph.py:118-140 | with b imported by a and c, `most_imported` has two entries, and (b, 2) comes first |
| StatsExamples.StatsNoCycles | tests/test_graph.py:118-140 | the statistics fixture has no cycle class |
| StatsExamples.GetStatsOnTest | tests/test_graph.py:118-140 | on the fixture: 3 files, 3 dependencies, 1 external, 0 cycles, and b first with 2 importers |
| GraphDicts.ToDict | fastdeps/graph.py:153-183 | fails exactly when a node or an imported file lies outside the root. Otherwise there is one node entry per displayed node with its three counts, and one edge record per edge. Sorted external lists appear only for nodes that have externals. The edge list is node by node in insertion order: each node's block holds exactly its edges |
| GraphDicts.AddEdges | fastdeps/graph.py:171-177 | one node's edges are appended after the earlier ones: one record from the node per imported file, or a failure exactly when an imported file cannot be printed |
| GraphDicts.BlockStep | fastdeps/graph.py:161-177 | appending a node's block to a list grouped by the nodes before it gives a list grouped by one more node |
| GraphDicts.DictComplete | fastdeps/graph.py:161-183 | a dictionary built through all nodes describes the whole graph |
| GraphDicts.DictCompleteEmpty | fastdeps/graph.py:153-159 | for a graph with no nodes, the dictionary with no entries is its description |
| GraphDicts.WellFormedPrintsAlone | fastdeps/graph.py:163-165 | for operating-system paths, no two nodes print alike, so no entry overwrites another |
| DictExamples.DictEdges | tests/test_graph.py:142-170 | the fixture's edge list is the single record a.py → b.py |
| DictExamples.DictNodes | tests/test_graph.py:142-170 | both fixture files have node entries |
| DictExamples.DictExternal | tests/test_graph.py:142-170 | the fixture's a.py lists exactly `requests` as external |
| DictExamples.ToDictOnTest | tests/test_graph.py:142-170 | `to_dict` itself, on the fixture, returns those nodes, that edge and that external list |
| Dot.Color | fastdeps/output.py:38-49 | lightgreen iff imported but importing nothing; lightblue iff importing but not imported; yellow iff importing, imported and imported by more than 3; white otherwise |
| Dot.ColorInGraph | fastdeps/output.py:38-49 | the same rule in terms of the graph's edges: successors and the files importing the node |
| Dot.Label | fastdeps/output.py:36 | a label contains no `/` |
| Dot.UnescapeLabel | fastdeps/output.py:36 | the label's `\n` escapes read back as `/` give the original path, for a path without backslashes |
| Dot.ExternalId | fastdeps/output.py:73 | an external node id contains no `.` |
| Dot.ExternalIdCollision | fastdeps/output.py:73 | the id scheme is not injective: `a.b` and `a_b` share the id `ext_a_b` |
| Dot.ExternalIdInjective | fastdeps/output.py:73 | for names without `_`, distinct names get distinct ids |
| Dot.EdgeLineRoundTrip | fastdeps/output.py:61 | an edge line between quote-free names parses back to exactly its two endpoints |
| Dot.ParsedEdgeLine | fastdeps/output.py:61 | any line the edge parser accepts is the edge line of the two names it returns |
| Dot.NodeLineRoundTrip | fastdeps/output.py:51 | a node line parses back to its name, its label and its colour |
| Dot.NodeLines | fastdeps/output.py:34-51 | fails iff some node lies outside the root. Otherwise there is one node line per node, in insertion order, carrying the node's colour |
| Dot.EdgeEntries | fastdeps/output.py:55-61 | fails iff the graph is not printable; otherwise there is one edge entry per edge and nothing else, node by node in insertion order |
| Dot.AddExternals | fastdeps/output.py:71-75 | one node's external entries are appended after the earlier ones: one entry from the node per external module |
| Dot.ExternalEntries | fastdeps/output.py:63-75 | one entry per (file, external module) pair and nothing else, node by node in insertion order |
| Dot.Render | fastdeps/output.py:28-77 | fails iff the graph is not printable; otherwise the node, edge and external sections each describe the graph, in node insertion order |
| Dot.ToDot | fastdeps/output.py:18-78 | fails iff a node or an imported file lies outside the root; otherwise the text is the newline-joined document of a description of the graph |
| Dot.BoxDrawn | fastdeps/output.py:34-51 | every displayed node's box line, with its colour, is in the output |
| Dot.EdgeDrawn | fastdeps/output.py:55-61 | every import edge has its `->` line in the output |
| Dot.ExternalDrawn | fastdeps/output.py:63-75 | with externals shown, each (file, external) pair has its dashed ellipse line and its dashed edge line |
| Dot.LineCount | fastdeps/output.py:28-77 | the output has 6 + nodes + edges lines, plus 2 + 2 per external pair when externals are shown |
| Dot.LineCountEmpty | fastdeps/output.py:28-77 | the empty graph's document is the one with no boxes, arrows or entries, and has 6 lines, or 8 with the external section |
| Dot.ExternalLines | fastdeps/output.py:72-75 | two lines per external entry, each belonging to one entry |
| Dot.TextSplits | fastdeps/output.py:78 | when no name holds a line break, splitting the text at newlines gives back exactly the line list |
| Dot.TextFrame | fastdeps/output.py:28-31 | the text starts with `digraph dependencies {` and a newline, and ends with a newline and `}` |
| Trace.Expand | fastdeps/mcp_server.py:296-303 | expanding one node keeps every queued path and found path a real import route. It adds at most one path, keeps every queued node queued, and only queues successors. If nothing was found, every successor is visited or queued |
| Trace.Visit | fastdeps/mcp_server.py:290-303 | one step of the search keeps the search invariant with the node marked visited, and finds at most one more path |
| Trace.RouteImporter | fastdeps/mcp_server.py:296-303 | a route of at least two files shows a file reachable from the source that imports the target |
| Trace.Search | fastdeps/mcp_server.py:285-303 | at most 5 paths, each starting at the source, ending at the target, and following `imports` edges. The result is empty exactly when no file reachable from the source imports the target |
| Trace.TraceImports | fastdeps/mcp_server.py:262-315 | "not found" exactly when the source or the target is not a node. "Direct import" exactly when both are nodes and the source imports the target. "No path" exactly when both are nodes, the source does not import the target, and no file reachable from the source imports it. Otherwise 1 to 5 routes, each a real import path of at least 2 hops |

## Left out

- Import extraction (`ImportExtractor`, fastdeps/parser.py:20-104): a wrapper over Python's `ast` module and file decoding. Import records are given input, and `Parallel.Outcome` takes the extractor as a parameter, with `None` meaning extraction raised.
- The filesystem: `os.walk` for the index is a given list of root-relative file paths. `os.scandir` is an abstract tree of entries, with symlink and listability flags. `Path.resolve`, `exists` and `is_file` are a given target kind.
- The process pool, `as_completed`, the 30-second timeout and `cpu_count`: the completion order and the set of failing chunks are parameters, and so is the CPU count.
- Timing and progress prints (fastdeps/analyzer.py:38, 56, 62, 94-102).
- `to_json`, `to_text`, `save_dot`, `save_png` and `save_svg` (fastdeps/output.py), the CLI (fastdeps/cli.py), the MCP server (fastdeps/server.py and the rest of fastdeps/mcp_server.py), packaging (setup.py, fastdeps/__init__.py): output formatting, subprocesses and protocol handling.
- Ignore-glob matching: the scanner as defined (fastdeps/parser.py:107) takes no patterns; only the call at fastdeps/analyzer.py:53 passes them.
- Trace.TraceImports: argument checking, the call to the analyser and the message texts (fastdeps/mcp_server.py:245-260, 305-324) are left out. The search runs on a given graph, and the hop count shown (path length − 1) is stated only as a lower bound of 2.
- Scanner.FindPythonFiles: the contract fixes the set of returned paths, not their order, which depends on `os.scandir`'s order and the stack discipline.
- Tarjan.FindCycles: the order of the reported cycles and of the members inside one depends on Python's set iteration order. The model picks successors arbitrarily and states only order-independent facts.
- Tarjan.FindCycles: `strongconnect` (fastdeps/graph.py:58, 71) recurses once per node on a path of first visits, so a chain longer than Python's recursion limit (1000 frames by default) raises `RecursionError`. `analyze` then raises too, because it always calls `get_stats` (fastdeps/analyzer.py:98), which calls `find_cycles`. The model has no depth bound and always returns the cycles.
- Stats.MostImported: ties among equal counts follow `defaultdict` insertion order in Python. The contract states ordering, membership and completeness above the last kept count, but not which of several equally imported files is kept.
- GraphDicts.ToDict: the key order of the dictionary (node insertion order) is not stated; the contract states which keys there are and what they map to. Inside one node's block the edge order is Python's iteration order of the `imports` set, which the model leaves open: the block is stated as a set of records of the right size.
- Dot.EdgeEntries: inside one node's block the line order is Python's iteration order of the `imports` set, left open as for `GraphDicts.ToDict`; the blocks themselves follow node insertion order.
- Dot.ExternalEntries: inside one node's block the order is Python's iteration order of the `external_imports` set, left open; the blocks follow node insertion order.
- Parallel.ProcessFiles: the key order of the merged dictionary (chunk completion order, then the order inside a chunk) is not stated; the contract states the key set and each value.
- GraphDicts.ToDict: when two nodes print alike, Python's later entry overwrites the earlier one; the contract describes entries only for nodes that print alone (always the case for operating-system paths, `GraphDicts.WellFormedPrintsAlone`).
- Dot.LineCount: holds by unfolding the definitions, so it carries no proof of its own.
- Path strings: `str()` of a path is modelled for paths as segment sequences; Windows separators and drive letters are not modelled.

## Findings

| source | as written | input that shows it | evidently intended | confidence | as-written member | corrected member |
|---|---|---|---|---|---|---|
| fastdeps/analyzer.py:53 | `find_python_files(target_path, self.exclude_dirs, self.ignore_patterns)` passes three arguments to a function that takes two (fastdeps/parser.py:107) | any directory target, e.g. a directory containing `app.py` | scan the directory with the exclusion set and analyse the `.py` files found | not executed | Analyzer.SelectFilesAsWritten, Analyzer.DirectoryTargetRaises | Analyzer.SelectFiles (used by Analyzer.Analyze) |
