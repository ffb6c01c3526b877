/** `DependencyAnalyzer.analyze` of fastdeps/analyzer.py: pick the files and
    the project root from the target, extract every file's imports, index
    the root, and fold the import records into a graph through the
    resolver. */
module Analyzer {
  import opened Wrappers
  import opened Strings
  import opened Paths
  import opened Dicts
  import opened Imports
  import opened Graphs
  import opened Resolver
  import opened Scanner
  import opened Parallel

  /** What the resolved target path is on disk: nothing, a file, or a
      directory with its listing. */
  datatype Target = Missing | FileTarget | DirectoryTarget(listing: Option<seq<Entry>>)

  /** `FileNotFoundError` for a missing target; `TypeError` for a call with
      more arguments than the callee accepts; `ValueError` from the process
      pool for a worker count below 1. */
  datatype AnalyzeError = FileNotFound(target: Path) | TypeError | ValueError

  /** The files to analyse and the root the resolver indexes. */
  datatype Selection = Selection(root: Path, files: seq<Path>)

  /** `num_workers or mp.cpu_count()`: a missing or zero request falls back
      to the processor count; a negative request (`--workers` takes any
      integer) is kept. */
  function Workers(requested: Option<int>, cpus: nat): (w: int)
    requires cpus >= 1
    ensures w != 0
    ensures w < 1 <==> requested.Some? && requested.value < 0
    ensures requested.Some? && requested.value != 0 ==> w == requested.value
    ensures requested.None? || requested.value == 0 ==> w == cpus
  {
    if requested.Some? && requested.value != 0 then requested.value else cpus
  }

  // ----- choosing the files -----

  /** Lines 41-55: a missing target raises, a file is analysed alone below
      its directory, a directory is scanned and is its own root. */
  method SelectFiles(target: Path, kind: Target, excludeDirs: Option<set<string>>)
    returns (r: Result<Selection, AnalyzeError>)
    ensures r.Failure? <==> kind.Missing?
    ensures kind.Missing? ==> r == Failure(FileNotFound(target))
    ensures kind.FileTarget? ==> r == Success(Selection(Parent(target), [target]))
    ensures kind.DirectoryTarget? ==> r.Success? && r.value.root == target
    ensures kind.DirectoryTarget? ==> forall p :: p in r.value.files <==>
      target <= p && Found(kind.listing, p[|target|..], Excluded(excludeDirs))
  {
    match kind
    case Missing =>
      return Failure(FileNotFound(target));
    case FileTarget =>
      return Success(Selection(Parent(target), [target]));
    case DirectoryTarget(listing) =>
      var files := FindPythonFiles(target, listing, excludeDirs);
      return Success(Selection(target, files));
  }

  /** Lines 41-55 as written: the directory branch passes the ignore
      patterns as a third argument to `find_python_files`, which takes two,
      so every directory target raises `TypeError`. */
  function SelectFilesAsWritten(target: Path, kind: Target): (r: Result<Selection, AnalyzeError>)
    ensures r.Success? <==> kind.FileTarget?
    ensures kind.DirectoryTarget? ==> r == Failure(TypeError)
  {
    match kind
    case Missing => Failure(FileNotFound(target))
    case FileTarget => Success(Selection(Parent(target), [target]))
    case DirectoryTarget(_) => Failure(TypeError)
  }

  /** The discrepancy at line 53 on a concrete target: a directory holding
      one Python file, which the two-parameter scan reports, makes the call
      as written raise instead. */
  lemma DirectoryTargetRaises(target: Path)
    ensures var listing := Some([File("app.py", false)]);
      && Found(listing, ["app.py"], Excluded(None))
      && SelectFilesAsWritten(target, DirectoryTarget(listing)) == Failure(TypeError)
  {
    var e := File("app.py", false);
    assert EndsWith(e.name, ".py") by {
      assert e.name[|e.name| - 3..] == ".py";
    }
    assert !Skipped(e, DefaultExcluded);
    assert FoundVia([e][0], ["app.py"], Excluded(None));
  }

  // ----- one import record -----

  /** The name line 79 or 84 hands to the resolver: for a relative
      `from . import x`, which has no module, the first imported name. A
      module of `None` reads as the empty name, as the resolver's
      `if not module_name` tests do. */
  function ImportName(imp: Import): (name: string)
    ensures imp.level == 0 ==> name == imp.moduleName.GetOr("")
    ensures imp.level > 0 && imp.moduleName.GetOr("") == "" && imp.names != [] ==> name == imp.names[0]
    ensures imp.moduleName.GetOr("") != "" ==> name == imp.moduleName.value
  {
    if imp.level == 0 then imp.moduleName.GetOr("")
    else if imp.moduleName.GetOr("") == "" && imp.names != [] then imp.names[0]
    else imp.moduleName.GetOr("")
  }

  /** The file an import of `file` resolves to. */
  function Resolved(idx: ModuleIndex, file: Path, imp: Import): (r: Option<Path>)
    ensures r.Some? ==> r.value in idx.fileIndex.Values
  {
    ResolveImport(idx, ImportName(imp), file, imp.level)
  }

  /** Lines 89-92: the external module an unresolved import records; none
      with `internal_only`, for an empty module, or for a module that
      `is_external` rejects. */
  function ExternalOf(idx: ModuleIndex, file: Path, imp: Import, internalOnly: bool): (r: Option<string>)
    ensures internalOnly ==> r.None?
    ensures r.Some? ==> Resolved(idx, file, imp).None? && imp.moduleName == Some(r.value)
    ensures r.Some? ==> r.value != "" && TopLevel(r.value) !in StdlibModules
    ensures r.Some? ==> LookupModule(idx.fileIndex, r.value).None?
  {
    if Resolved(idx, file, imp).None? && !internalOnly && imp.moduleName.Some? && imp.moduleName.value != ""
       && IsExternal(idx, imp.moduleName.value)
    then Some(imp.moduleName.value)
    else None
  }

  /** One pass of the inner loop (lines 76-92): the edge to the resolved
      file, or the external module, or nothing. */
  function AddRecord(idx: ModuleIndex, g: DependencyGraph, file: Path, imp: Import, internalOnly: bool)
    : (r: DependencyGraph)
    requires g.nodes.Valid() && file in g.nodes.entries
    ensures r.nodes.Valid() && r.rootPath == g.rootPath
    ensures forall p :: p in r.nodes.entries <==> p in g.nodes.entries || Resolved(idx, file, imp) == Some(p)
    ensures forall p, q :: HasEdge(r, p, q) <==> HasEdge(g, p, q) || (p == file && Resolved(idx, file, imp) == Some(q))
    ensures forall p, m :: HasExternal(r, p, m) <==>
      HasExternal(g, p, m) || (p == file && ExternalOf(idx, file, imp, internalOnly) == Some(m))
    ensures forall p :: p in g.nodes.entries ==> r.nodes.entries[p].path == g.nodes.entries[p].path
    ensures forall p :: p in r.nodes.entries && p !in g.nodes.entries ==> r.nodes.entries[p].path == p
    ensures forall q, p :: HasBackEdge(r, q, p) <==>
      HasBackEdge(g, q, p) || (p == file && Resolved(idx, file, imp) == Some(q))
  {
    match Resolved(idx, file, imp)
    case Some(q) => AddDependency(g, file, q)
    case None =>
      match ExternalOf(idx, file, imp, internalOnly)
      case Some(m) => AddExternal(g, file, m)
      case None => g
  }

  /** `p` is the file one of `imps` resolves to. */
  ghost predicate ResolvesTo(idx: ModuleIndex, file: Path, imps: seq<Import>, p: Path) {
    exists imp :: imp in imps && Resolved(idx, file, imp) == Some(p)
  }

  /** `m` is the external module one of `imps` records. */
  ghost predicate RecordsExternal(idx: ModuleIndex, file: Path, imps: seq<Import>, internalOnly: bool, m: string) {
    exists imp :: imp in imps && ExternalOf(idx, file, imp, internalOnly) == Some(m)
  }

  /** The inner loop over the imports of `file`, in order. */
  function AddRecords(idx: ModuleIndex, g: DependencyGraph, file: Path, imps: seq<Import>, internalOnly: bool)
    : (r: DependencyGraph)
    requires g.nodes.Valid() && file in g.nodes.entries
    ensures r.nodes.Valid() && r.rootPath == g.rootPath
    ensures forall p :: p in r.nodes.entries <==> p in g.nodes.entries || ResolvesTo(idx, file, imps, p)
    ensures forall p, q :: HasEdge(r, p, q) <==> HasEdge(g, p, q) || (p == file && ResolvesTo(idx, file, imps, q))
    ensures forall p, m :: HasExternal(r, p, m) <==>
      HasExternal(g, p, m) || (p == file && RecordsExternal(idx, file, imps, internalOnly, m))
    decreases |imps|
  {
    if imps == [] then g
    else
      var g1 := AddRecord(idx, g, file, imps[0], internalOnly);
      var r := AddRecords(idx, g1, file, imps[1..], internalOnly);
      RecordsStep(idx, g, g1, r, file, imps, internalOnly);
      r
  }

  /** The first record and the rest together account for all of `imps`. */
  lemma RecordsStep(idx: ModuleIndex, g: DependencyGraph, g1: DependencyGraph, r: DependencyGraph,
                    file: Path, imps: seq<Import>, internalOnly: bool)
    requires imps != []
    requires forall p :: p in g1.nodes.entries <==> p in g.nodes.entries || Resolved(idx, file, imps[0]) == Some(p)
    requires forall p, q :: HasEdge(g1, p, q) <==> HasEdge(g, p, q) || (p == file && Resolved(idx, file, imps[0]) == Some(q))
    requires forall p, m :: HasExternal(g1, p, m) <==>
      HasExternal(g, p, m) || (p == file && ExternalOf(idx, file, imps[0], internalOnly) == Some(m))
    requires forall p :: p in r.nodes.entries <==> p in g1.nodes.entries || ResolvesTo(idx, file, imps[1..], p)
    requires forall p, q :: HasEdge(r, p, q) <==> HasEdge(g1, p, q) || (p == file && ResolvesTo(idx, file, imps[1..], q))
    requires forall p, m :: HasExternal(r, p, m) <==>
      HasExternal(g1, p, m) || (p == file && RecordsExternal(idx, file, imps[1..], internalOnly, m))
    ensures forall p :: p in r.nodes.entries <==> p in g.nodes.entries || ResolvesTo(idx, file, imps, p)
    ensures forall p, q :: HasEdge(r, p, q) <==> HasEdge(g, p, q) || (p == file && ResolvesTo(idx, file, imps, q))
    ensures forall p, m :: HasExternal(r, p, m) <==>
      HasExternal(g, p, m) || (p == file && RecordsExternal(idx, file, imps, internalOnly, m))
  {
    assert forall imp :: imp in imps <==> imp == imps[0] || imp in imps[1..] by {
      assert imps == [imps[0]] + imps[1..];
    }
  }

  // ----- the whole fold -----

  /** `p` is one of `files` or the file one of their imports resolves to. */
  ghost predicate Reported(idx: ModuleIndex, records: map<Path, seq<Import>>, files: seq<Path>, p: Path)
    requires forall f :: f in files ==> f in records
  {
    p in files || exists f :: f in files && ResolvesTo(idx, f, records[f], p)
  }

  /** The outer loop (lines 71-92) over `files`, in order: each file becomes
      a node, then its records are added. */
  function AddFiles(idx: ModuleIndex, g: DependencyGraph, records: map<Path, seq<Import>>, files: seq<Path>,
                    internalOnly: bool): (r: DependencyGraph)
    requires g.nodes.Valid() && forall f :: f in files ==> f in records
    ensures r.nodes.Valid() && r.rootPath == g.rootPath
    ensures forall p :: p in r.nodes.entries <==> p in g.nodes.entries || Reported(idx, records, files, p)
    ensures forall p, q :: HasEdge(r, p, q) <==>
      HasEdge(g, p, q) || (p in files && ResolvesTo(idx, p, records[p], q))
    ensures forall p, m :: HasExternal(r, p, m) <==>
      HasExternal(g, p, m) || (p in files && RecordsExternal(idx, p, records[p], internalOnly, m))
    decreases |files|
  {
    if files == [] then g
    else
      var f := files[0];
      var g1 := AddRecords(idx, AddFile(g, f), f, records[f], internalOnly);
      var r := AddFiles(idx, g1, records, files[1..], internalOnly);
      FilesStep(idx, g, g1, r, records, files, internalOnly);
      r
  }

  lemma FilesStep(idx: ModuleIndex, g: DependencyGraph, g1: DependencyGraph, r: DependencyGraph,
                  records: map<Path, seq<Import>>, files: seq<Path>, internalOnly: bool)
    requires files != [] && forall f :: f in files ==> f in records
    requires forall p :: p in g1.nodes.entries <==>
      p in g.nodes.entries || p == files[0] || ResolvesTo(idx, files[0], records[files[0]], p)
    requires forall p, q :: HasEdge(g1, p, q) <==>
      HasEdge(g, p, q) || (p == files[0] && ResolvesTo(idx, files[0], records[files[0]], q))
    requires forall p, m :: HasExternal(g1, p, m) <==>
      HasExternal(g, p, m) || (p == files[0] && RecordsExternal(idx, files[0], records[files[0]], internalOnly, m))
    requires forall p :: p in r.nodes.entries <==> p in g1.nodes.entries || Reported(idx, records, files[1..], p)
    requires forall p, q :: HasEdge(r, p, q) <==>
      HasEdge(g1, p, q) || (p in files[1..] && ResolvesTo(idx, p, records[p], q))
    requires forall p, m :: HasExternal(r, p, m) <==>
      HasExternal(g1, p, m) || (p in files[1..] && RecordsExternal(idx, p, records[p], internalOnly, m))
    ensures forall p :: p in r.nodes.entries <==> p in g.nodes.entries || Reported(idx, records, files, p)
    ensures forall p, q :: HasEdge(r, p, q) <==>
      HasEdge(g, p, q) || (p in files && ResolvesTo(idx, p, records[p], q))
    ensures forall p, m :: HasExternal(r, p, m) <==>
      HasExternal(g, p, m) || (p in files && RecordsExternal(idx, p, records[p], internalOnly, m))
  {
    assert forall f :: f in files <==> f == files[0] || f in files[1..] by {
      assert files == [files[0]] + files[1..];
    }
  }

  /** Lines 64-92: the graph of `records`, rooted at `root`. */
  function BuildGraph(idx: ModuleIndex, root: Path, records: Dict<Path, seq<Import>>, internalOnly: bool)
    : (g: DependencyGraph)
    requires records.Valid()
    ensures g.nodes.Valid() && g.rootPath == Some(root)
    ensures forall f :: f in records.entries ==> f in g.nodes.entries
    ensures forall p :: p in g.nodes.entries <==>
      p in records.entries || exists f :: f in records.entries && ResolvesTo(idx, f, records.entries[f], p)
    ensures forall p, q :: HasEdge(g, p, q) <==> p in records.entries && ResolvesTo(idx, p, records.entries[p], q)
    ensures forall p, m :: HasExternal(g, p, m) <==>
      p in records.entries && RecordsExternal(idx, p, records.entries[p], internalOnly, m)
  {
    var start := EmptyGraph().(rootPath := Some(root));
    assert forall f :: f in records.keys <==> f in records.entries;
    AddFiles(idx, start, records.entries, records.keys, internalOnly)
  }

  /** With `internal_only` no external module is recorded; otherwise every
      recorded one is non-empty, outside the standard library, and not a
      project module. */
  lemma BuildGraphExternals(idx: ModuleIndex, root: Path, records: Dict<Path, seq<Import>>, internalOnly: bool, p: Path, m: string)
    requires records.Valid() && HasExternal(BuildGraph(idx, root, records, internalOnly), p, m)
    ensures !internalOnly
    ensures m != "" && TopLevel(m) !in StdlibModules && LookupModule(idx.fileIndex, m).None?
  {
    var imp :| imp in records.entries[p] && ExternalOf(idx, p, imp, internalOnly) == Some(m);
  }

  /** Every edge of the built graph leads to an indexed file. */
  lemma BuildGraphTargetsIndexed(idx: ModuleIndex, root: Path, records: Dict<Path, seq<Import>>, internalOnly: bool, p: Path, q: Path)
    requires records.Valid() && HasEdge(BuildGraph(idx, root, records, internalOnly), p, q)
    ensures q in idx.fileIndex.Values
  {
    var imp :| imp in records.entries[p] && Resolved(idx, p, imp) == Some(q);
  }

  // ----- node order of the built graph -----

  /** The file `imp` resolves to, if any: the path one pass of the inner
      loop hands to `add_dependency` as its target. */
  function ResolvedTarget(idx: ModuleIndex, file: Path, imp: Import): seq<Path> {
    match Resolved(idx, file, imp)
    case Some(q) => [q]
    case None => []
  }

  /** The files `imps` resolve to, in order. */
  function Targets(idx: ModuleIndex, file: Path, imps: seq<Import>): seq<Path>
    decreases |imps|
  {
    if imps == [] then [] else ResolvedTarget(idx, file, imps[0]) + Targets(idx, file, imps[1..])
  }

  /** The paths the loop writes into the node dictionary, in order: each
      file, then the files its imports resolve to. */
  function Mentions(idx: ModuleIndex, records: map<Path, seq<Import>>, files: seq<Path>): seq<Path>
    requires forall f :: f in files ==> f in records
    decreases |files|
  {
    if files == [] then []
    else [files[0]] + Targets(idx, files[0], records[files[0]]) + Mentions(idx, records, files[1..])
  }

  /** One record adds its resolved file, when new, at the end of the order. */
  lemma RecordOrder(idx: ModuleIndex, g: DependencyGraph, file: Path, imp: Import, internalOnly: bool)
    requires g.nodes.Valid() && file in g.nodes.entries
    ensures AddRecord(idx, g, file, imp, internalOnly).nodes.keys == KeysAfter(g.nodes.keys, ResolvedTarget(idx, file, imp))
  {
    match Resolved(idx, file, imp)
    case Some(q) =>
      assert q in g.nodes.entries <==> q in g.nodes.keys by {
        assert q in g.nodes.keys <==> q in (set k | k in g.nodes.keys);
      }
      assert [q][1..] == [];
    case None =>
  }

  /** The inner loop appends the new resolved files in import order. */
  lemma {:induction false} RecordsOrder(idx: ModuleIndex, g: DependencyGraph, file: Path, imps: seq<Import>, internalOnly: bool)
    requires g.nodes.Valid() && file in g.nodes.entries
    ensures AddRecords(idx, g, file, imps, internalOnly).nodes.keys == KeysAfter(g.nodes.keys, Targets(idx, file, imps))
    decreases |imps|
  {
    if imps != [] {
      var g1 := AddRecord(idx, g, file, imps[0], internalOnly);
      assert AddRecords(idx, g, file, imps, internalOnly) == AddRecords(idx, g1, file, imps[1..], internalOnly);
      RecordOrder(idx, g, file, imps[0], internalOnly);
      RecordsOrder(idx, g1, file, imps[1..], internalOnly);
      KeysAfterConcat(g.nodes.keys, ResolvedTarget(idx, file, imps[0]), Targets(idx, file, imps[1..]));
    }
  }

  /** The outer loop writes each file, then its resolved files, appending
      each path the first time it is written. */
  lemma {:induction false} FilesOrder(idx: ModuleIndex, g: DependencyGraph, records: map<Path, seq<Import>>,
                                      files: seq<Path>, internalOnly: bool)
    requires g.nodes.Valid() && forall f :: f in files ==> f in records
    ensures AddFiles(idx, g, records, files, internalOnly).nodes.keys == KeysAfter(g.nodes.keys, Mentions(idx, records, files))
    decreases |files|
  {
    if files != [] {
      var f := files[0];
      var g0 := AddFile(g, f);
      var g1 := AddRecords(idx, g0, f, records[f], internalOnly);
      var ts := Targets(idx, f, records[f]);
      assert g0.nodes.keys == KeysAfter(g.nodes.keys, [f]) by {
        assert f in g.nodes.entries <==> f in g.nodes.keys by {
          assert f in g.nodes.keys <==> f in (set k | k in g.nodes.keys);
        }
        assert [f][1..] == [];
      }
      RecordsOrder(idx, g0, f, records[f], internalOnly);
      FilesOrder(idx, g1, records, files[1..], internalOnly);
      KeysAfterConcat(g.nodes.keys, [f], ts);
      KeysAfterConcat(g.nodes.keys, [f] + ts, Mentions(idx, records, files[1..]));
    }
  }

  /** The node order of the built graph is the order in which the loop
      first writes each path: the files in dictionary order, each followed
      by the files its imports resolve to. */
  lemma BuildGraphOrder(idx: ModuleIndex, root: Path, records: Dict<Path, seq<Import>>, internalOnly: bool)
    requires records.Valid()
    ensures BuildGraph(idx, root, records, internalOnly).nodes.keys
      == KeysAfter([], Mentions(idx, records.entries, records.keys))
  {
    var start := EmptyGraph().(rootPath := Some(root));
    assert forall f :: f in records.keys <==> f in records.entries;
    FilesOrder(idx, start, records.entries, records.keys, internalOnly);
  }

  // ----- validity of the built graph -----

  lemma AddRecordValid(idx: ModuleIndex, g: DependencyGraph, file: Path, imp: Import, internalOnly: bool)
    requires Valid(g) && file in g.nodes.entries
    ensures Valid(AddRecord(idx, g, file, imp, internalOnly))
  {
    match Resolved(idx, file, imp)
    case Some(q) => AddDependencyValid(g, file, q);
    case None =>
      match ExternalOf(idx, file, imp, internalOnly)
      case Some(m) => AddExternalValid(g, file, m);
      case None =>
  }

  lemma {:induction false} AddRecordsValid(idx: ModuleIndex, g: DependencyGraph, file: Path, imps: seq<Import>, internalOnly: bool)
    requires Valid(g) && file in g.nodes.entries
    ensures Valid(AddRecords(idx, g, file, imps, internalOnly))
    decreases |imps|
  {
    if imps != [] {
      var g1 := AddRecord(idx, g, file, imps[0], internalOnly);
      AddRecordValid(idx, g, file, imps[0], internalOnly);
      AddRecordsValid(idx, g1, file, imps[1..], internalOnly);
    }
  }

  lemma {:induction false} AddFilesValid(idx: ModuleIndex, g: DependencyGraph, records: map<Path, seq<Import>>,
                                         files: seq<Path>, internalOnly: bool)
    requires Valid(g) && forall f :: f in files ==> f in records
    ensures Valid(AddFiles(idx, g, records, files, internalOnly))
    decreases |files|
  {
    if files != [] {
      var f := files[0];
      AddFileValid(g, f);
      AddRecordsValid(idx, AddFile(g, f), f, records[f], internalOnly);
      var g1 := AddRecords(idx, AddFile(g, f), f, records[f], internalOnly);
      AddFilesValid(idx, g1, records, files[1..], internalOnly);
    }
  }

  /** The built graph keeps the node and mirror invariants. */
  lemma BuildGraphValid(idx: ModuleIndex, root: Path, records: Dict<Path, seq<Import>>, internalOnly: bool)
    requires records.Valid()
    ensures Valid(BuildGraph(idx, root, records, internalOnly))
  {
    var start := EmptyGraph().(rootPath := Some(root));
    assert forall f :: f in records.keys <==> f in records.entries;
    assert Valid(start);
    AddFilesValid(idx, start, records.entries, records.keys, internalOnly);
  }

  // ----- the pipeline -----

  /** `analyze(target, internal_only)`. The filesystem is given as `kind`
      (the target) and `walk` (the root-relative files the resolver's own
      walk lists below the chosen root); the process pool as the requested
      worker count, the processor count, the per-file extraction, the set of
      failing chunks and the completion order for each chunk count. */
  method Analyze(target: Path, kind: Target, excludeDirs: Option<set<string>>, numWorkers: Option<int>, cpus: nat,
                 internalOnly: bool, extract: Extractor, failed: set<nat>, orders: nat -> seq<nat>, walk: seq<Path>)
    returns (r: Result<DependencyGraph, AnalyzeError>, files: seq<Path>, records: Dict<Path, seq<Import>>)
    requires cpus >= 1 && forall n :: CompletionOrder(orders(n), n)
    ensures r.Failure? <==> kind.Missing? || (|files| > 3 && numWorkers.Some? && numWorkers.value < 0)
    ensures kind.Missing? ==> r == Failure(FileNotFound(target))
    ensures !kind.Missing? && r.Failure? ==> r == Failure(ValueError)
    ensures kind.FileTarget? ==> files == [target]
    ensures kind.DirectoryTarget? ==> forall p :: p in files <==>
      target <= p && Found(kind.listing, p[|target|..], Excluded(excludeDirs))
    ensures r.Success? ==> records.Valid() && records.entries.Keys == set f | f in files
    ensures r.Success? ==> forall f :: f in records.entries ==>
      records.entries[f] == Outcome(extract, f) || records.entries[f] == []
    ensures r.Success? ==>
      var root := if kind.FileTarget? then Parent(target) else target;
      && r.value.rootPath == Some(root)
      && r.value == BuildGraph(BuildIndex(root, walk), root, records, internalOnly)
      && Valid(r.value)
      && (forall f :: f in files ==> f in r.value.nodes.entries)
      && r.value.nodes.keys == KeysAfter([], Mentions(BuildIndex(root, walk), records.entries, records.keys))
  {
    records := Empty();
    var sel := SelectFiles(target, kind, excludeDirs);
    if sel.Failure? {
      return Failure(sel.error), [], records;
    }
    var root := sel.value.root;
    files := sel.value.files;
    var workers := Workers(numWorkers, cpus);
    var size := ChunkSize(|files|, workers);
    var processed := ProcessFiles(files, workers, extract, failed, orders(NumChunks(|files|, size)));
    if processed.None? {
      return Failure(ValueError), files, records;
    }
    records := processed.value;
    var idx := BuildIndex(root, walk);
    var g := BuildGraph(idx, root, records, internalOnly);
    BuildGraphValid(idx, root, records, internalOnly);
    BuildGraphOrder(idx, root, records, internalOnly);
    return Success(g), files, records;
  }
}
