/** Module index and import resolution (fastdeps/resolver.py).

    The index maps dotted module names to files below the project root. It is
    built once from the files a directory walk lists; afterwards absolute
    imports are resolved through a fixed cascade of lookups and relative
    imports by ascending package directories. */
module Resolver {
  import opened Wrappers
  import opened Strings
  import opened Paths

  /** Top-level names that are always treated as the standard library
      (`STDLIB_MODULES`), listed in the source's order and split in two
      halves so that a name's absence can be checked half by half. */
  const StdlibAToL: seq<string> := [
    "abc", "argparse", "ast", "asyncio", "base64", "bisect", "builtins",
    "collections", "contextlib", "copy", "csv", "dataclasses", "datetime",
    "decimal", "dis", "enum", "functools", "gc", "glob", "hashlib", "heapq",
    "http", "importlib", "inspect", "io", "itertools", "json", "logging"
  ]

  const StdlibMToZ: seq<string> := [
    "math", "multiprocessing", "os", "pathlib", "pickle", "platform", "queue",
    "random", "re", "shutil", "signal", "socket", "sqlite3", "string",
    "struct", "subprocess", "sys", "tempfile", "textwrap", "threading",
    "time", "timeit", "traceback", "typing", "unittest", "urllib", "uuid",
    "warnings", "weakref", "xml", "zipfile"
  ]

  const StdlibModules: set<string> := set x | x in StdlibAToL + StdlibMToZ

  /** The index built for one project root. */
  datatype ModuleIndex = ModuleIndex(root: Path, fileIndex: map<string, Path>, packageDirs: set<Path>)

  /** First dotted segment of a module name. */
  function TopLevel(name: string): string {
    Split(name, '.')[0]
  }

  /** The package-initializer form of a dotted name that the resolver also
      tries (fastdeps/resolver.py:110, 119, 136, 148, 161, 229). The index
      files a package initializer under the package's own name
      (`ModuleParts`), so this key names only a module inside a directory
      that is itself called `__init__`. */
  function InitForm(name: string): string {
    name + ".__init__"
  }

  /** The dotted parts of a root-relative path: a package initializer stands
      for its directory, a `.py` module for its stem, anything else for all of
      its segments. */
  function ModuleParts(rel: Path): seq<string> {
    if HasPySuffix(Name(rel)) then
      if Stem(Name(rel)) == "__init__" then Parent(rel)
      else Parent(rel) + [Stem(Name(rel))]
    else rel
  }

  /** `_path_to_module`: the dotted module name of a root-relative path. */
  function PathToModule(rel: Path): string {
    Join(ModuleParts(rel), '.')
  }

  /** Files that the index takes in: names ending in `.py`. */
  predicate IsIndexed(rel: Path) {
    EndsWith(Name(rel), ".py")
  }

  /** A package initializer is keyed by its directory's dotted name; one at
      the root is keyed by the empty name. */
  lemma PackageInitKey(dir: Path)
    ensures PathToModule(dir + ["__init__.py"]) == Join(dir, '.')
    ensures PathToModule(["__init__.py"]) == ""
  {
    var rel := dir + ["__init__.py"];
    assert Name(rel) == "__init__.py";
    assert Stem("__init__.py") == "__init__";
    assert Parent(rel) == dir;
    assert Name(["__init__.py"]) == "__init__.py";
    assert Parent(["__init__.py"]) == [];
  }

  /** A regular module is keyed by its directory's dotted name followed by
      its stem. */
  lemma ModuleKey(dir: Path, stem: string)
    requires stem != "" && stem != "__init__"
    ensures PathToModule(dir + [stem + ".py"]) == Join(dir + [stem], '.')
  {
    var rel := dir + [stem + ".py"];
    assert Name(rel) == stem + ".py";
    assert EndsWith(stem + ".py", ".py");
    assert Stem(stem + ".py") == stem;
    assert Parent(rel) == dir;
  }

  /** The file half of `_build_index`: each `.py` file of `walk` is entered
      under its module name, a later file overwriting an earlier one with the
      same name. */
  function FileIndex(root: Path, walk: seq<Path>): map<string, Path>
    decreases |walk|
  {
    if |walk| == 0 then map[]
    else
      var front := FileIndex(root, walk[..|walk| - 1]);
      var f := walk[|walk| - 1];
      if IsIndexed(f) then front[PathToModule(f) := root + f] else front
  }

  /** Every index entry maps the module name of a listed `.py` file to that
      file below the root. */
  lemma {:induction false} FileIndexSound(root: Path, walk: seq<Path>, k: string)
    requires k in FileIndex(root, walk)
    ensures exists i :: (0 <= i < |walk| && IsIndexed(walk[i]) && PathToModule(walk[i]) == k
      && FileIndex(root, walk)[k] == root + walk[i])
    decreases |walk|
  {
    var front := walk[..|walk| - 1];
    var f := walk[|walk| - 1];
    if IsIndexed(f) && PathToModule(f) == k {
      assert walk[|walk| - 1] == f;
    } else {
      FileIndexSound(root, front, k);
      var i :| 0 <= i < |front| && IsIndexed(front[i]) && PathToModule(front[i]) == k
        && FileIndex(root, front)[k] == root + front[i];
      assert walk[i] == front[i];
    }
  }

  /** Every listed `.py` file has its module name in the index. */
  lemma {:induction false} FileIndexComplete(root: Path, walk: seq<Path>, i: nat)
    requires i < |walk| && IsIndexed(walk[i])
    ensures PathToModule(walk[i]) in FileIndex(root, walk)
    decreases |walk|
  {
    if i < |walk| - 1 {
      var front := walk[..|walk| - 1];
      assert front[i] == walk[i];
      FileIndexComplete(root, front, i);
    }
  }

  /** Of several files with the same module name, the last one listed wins. */
  lemma {:induction false} FileIndexLastWins(root: Path, walk: seq<Path>, i: nat)
    requires i < |walk| && IsIndexed(walk[i])
    requires forall j :: i < j < |walk| && IsIndexed(walk[j]) ==> PathToModule(walk[j]) != PathToModule(walk[i])
    ensures PathToModule(walk[i]) in FileIndex(root, walk)
    ensures FileIndex(root, walk)[PathToModule(walk[i])] == root + walk[i]
    decreases |walk|
  {
    FileIndexComplete(root, walk, i);
    var key := PathToModule(walk[i]);
    var front := walk[..|walk| - 1];
    var f := walk[|walk| - 1];
    if i < |walk| - 1 {
      assert front[i] == walk[i];
      forall j | i < j < |front| && IsIndexed(front[j])
        ensures PathToModule(front[j]) != key
      {
        assert front[j] == walk[j];
      }
      FileIndexLastWins(root, front, i);
      assert IsIndexed(f) ==> PathToModule(f) != key;
      assert FileIndex(root, walk) == (if IsIndexed(f) then FileIndex(root, front)[PathToModule(f) := root + f] else FileIndex(root, front));
    } else {
      assert f == walk[i];
      assert FileIndex(root, walk) == FileIndex(root, front)[key := root + f];
    }
  }

  /** `dirs` holds exactly the directories, below `root`, of the
      `__init__.py` files listed in `walk`. */
  ghost predicate ListsPackages(root: Path, walk: seq<Path>, dirs: set<Path>) {
    forall d :: d in dirs <==>
      (exists i :: 0 <= i < |walk| && Name(walk[i]) == "__init__.py" && d == root + Parent(walk[i]))
  }

  /** Every directory found in a prefix of the walk is found in the walk. */
  lemma PackagesOfFront(root: Path, walk: seq<Path>, dirs: set<Path>)
    requires |walk| > 0 && ListsPackages(root, walk[..|walk| - 1], dirs)
    ensures forall d :: d in dirs ==>
      (exists i :: 0 <= i < |walk| && Name(walk[i]) == "__init__.py" && d == root + Parent(walk[i]))
  {
    var front := walk[..|walk| - 1];
    forall d | d in dirs
      ensures exists i :: 0 <= i < |walk| && Name(walk[i]) == "__init__.py" && d == root + Parent(walk[i])
    {
      var i :| 0 <= i < |front| && Name(front[i]) == "__init__.py" && d == root + Parent(front[i]);
      assert walk[i] == front[i];
    }
  }

  /** Every `__init__.py` before the last file has its directory found in
      the prefix. */
  lemma PackagesToFront(root: Path, walk: seq<Path>, dirs: set<Path>)
    requires |walk| > 0 && ListsPackages(root, walk[..|walk| - 1], dirs)
    ensures forall i :: 0 <= i < |walk| - 1 && Name(walk[i]) == "__init__.py" ==> root + Parent(walk[i]) in dirs
  {
    var front := walk[..|walk| - 1];
    forall i | 0 <= i < |walk| - 1 && Name(walk[i]) == "__init__.py"
      ensures root + Parent(walk[i]) in dirs
    {
      assert front[i] == walk[i];
    }
  }

  /** Extending the walk by one file adds that file's directory exactly
      when the file is an `__init__.py`. */
  lemma ListsPackagesSnoc(root: Path, walk: seq<Path>, dirs: set<Path>)
    requires |walk| > 0 && ListsPackages(root, walk[..|walk| - 1], dirs)
    ensures var f := walk[|walk| - 1];
      ListsPackages(root, walk, if Name(f) == "__init__.py" then dirs + {root + Parent(f)} else dirs)
  {
    PackagesOfFront(root, walk, dirs);
    PackagesToFront(root, walk, dirs);
  }

  /** The package half of `_build_index`: every directory that lists an
      `__init__.py`. */
  function PackageDirs(root: Path, walk: seq<Path>): (dirs: set<Path>)
    ensures ListsPackages(root, walk, dirs)
    decreases |walk|
  {
    if |walk| == 0 then {}
    else
      var front := PackageDirs(root, walk[..|walk| - 1]);
      var f := walk[|walk| - 1];
      ListsPackagesSnoc(root, walk, front);
      if Name(f) == "__init__.py" then front + {root + Parent(f)} else front
  }

  /** `_build_index`: `walk` lists every file below `root`, root-relative and
      in directory-walk order. */
  function BuildIndex(root: Path, walk: seq<Path>): (idx: ModuleIndex)
    ensures idx.root == root
    ensures idx.fileIndex == FileIndex(root, walk) && idx.packageDirs == PackageDirs(root, walk)
  {
    ModuleIndex(root, FileIndex(root, walk), PackageDirs(root, walk))
  }

  /** `fileIndex.get(key)`. */
  function Get(fileIndex: map<string, Path>, key: string): (r: Option<Path>)
    ensures r.Some? <==> key in fileIndex
    ensures r.Some? ==> r.value == fileIndex[key]
  {
    if key in fileIndex then Some(fileIndex[key]) else None
  }

  /** The two-step lookup used throughout the cascade: the dotted name
      itself, then its `.__init__` form. */
  function LookupModule(fileIndex: map<string, Path>, name: string): (r: Option<Path>)
    ensures r.Some? <==> name in fileIndex || InitForm(name) in fileIndex
    ensures name in fileIndex ==> r == Some(fileIndex[name])
    ensures r.Some? ==> r.value in fileIndex.Values
  {
    if name in fileIndex then Some(fileIndex[name])
    else Get(fileIndex, InitForm(name))
  }

  /** The name without its first segment, as stripped when that segment is
      the root directory's own name. */
  function Stripped(name: string): string {
    if '.' in name then Join(Split(name, '.')[1..], '.') else ""
  }

  /** Whether the root-name stripping of step 3 applies to `name`. */
  predicate RootPrefixed(idx: ModuleIndex, name: string) {
    Name(idx.root) == TopLevel(name) && Stripped(name) != ""
  }

  /** Step 3: the stripped name, looked up before anything else. */
  function RootStrippedLookup(idx: ModuleIndex, name: string): Option<Path> {
    if RootPrefixed(idx, name) then LookupModule(idx.fileIndex, Stripped(name)) else None
  }

  /** The importer's directory, relative to the root (`from_rel.parts[:-1]`). */
  function ImporterDir(rel: Path): Path {
    Parent(rel)
  }

  /** Step 5: the name as a sibling of the importer, then, for an importer two
      or more directories deep, joined to the grandparent directory. An
      importer outside the root skips the step. */
  function NearbyLookup(idx: ModuleIndex, name: string, fromFile: Path): (r: Option<Path>)
    ensures r.Some? ==> r.value in idx.fileIndex.Values
  {
    match RelativeTo(fromFile, idx.root)
    case None => None
    case Some(rel) =>
      var dir := ImporterDir(rel);
      var sibling := if |dir| > 0 then LookupModule(idx.fileIndex, Join(dir + [name], '.')) else None;
      if sibling.Some? then sibling
      else if |dir| > 1 then LookupModule(idx.fileIndex, Join(Parent(dir) + Split(name, '.'), '.'))
      else None
  }

  /** Step 6: the proper dotted prefixes `parts[..i]`, `parts[..i-1]`, ...,
      `parts[..1]`, longest first; the first one indexed wins. */
  function PrefixLookup(fileIndex: map<string, Path>, parts: seq<string>, i: nat): (r: Option<Path>)
    requires i <= |parts|
    ensures r.Some? <==> exists j :: 1 <= j <= i && LookupModule(fileIndex, Join(parts[..j], '.')).Some?
    ensures r.Some? ==> exists j :: (1 <= j <= i && r == LookupModule(fileIndex, Join(parts[..j], '.'))
      && forall k :: j < k <= i ==> LookupModule(fileIndex, Join(parts[..k], '.')).None?)
    decreases i
  {
    if i == 0 then None
    else
      var here := LookupModule(fileIndex, Join(parts[..i], '.'));
      if here.Some? then here else PrefixLookup(fileIndex, parts, i - 1)
  }

  /** `_resolve_absolute`. */
  function ResolveAbsolute(idx: ModuleIndex, name: string, fromFile: Path): (r: Option<Path>)
    ensures name == "" ==> r.None?
    ensures name != "" && TopLevel(name) in StdlibModules ==> r.None?
    ensures r.Some? ==> r.value in idx.fileIndex.Values
    ensures name != "" && TopLevel(name) !in StdlibModules && RootPrefixed(idx, name)
      && LookupModule(idx.fileIndex, Stripped(name)).Some?
      ==> r == LookupModule(idx.fileIndex, Stripped(name))
    ensures name != "" && TopLevel(name) !in StdlibModules && RootStrippedLookup(idx, name).None?
      && name in idx.fileIndex
      ==> r == Some(idx.fileIndex[name])
    ensures name != "" && TopLevel(name) !in StdlibModules && LookupModule(idx.fileIndex, name).Some?
      ==> r.Some?
  {
    if name == "" then None
    else if TopLevel(name) in StdlibModules then None
    else
      var viaRoot := RootStrippedLookup(idx, name);
      if viaRoot.Some? then viaRoot
      else
        var direct := LookupModule(idx.fileIndex, name);
        if direct.Some? then direct
        else
          var nearby := NearbyLookup(idx, name, fromFile);
          if nearby.Some? then nearby
          else
            var parts := Split(name, '.');
            PrefixLookup(idx.fileIndex, parts, |parts| - 1)
  }

  /** The parts a relative import appends to the package path. */
  function NameParts(name: string): seq<string> {
    if name == "" then [] else Split(name, '.')
  }

  /** `_resolve_relative`. Both branches on whether the importer is an
      `__init__.py` (fastdeps/resolver.py:176-181) drop the last segment, so
      either way the importer's directory is its package; the second lookup
      of the target (fastdeps/resolver.py:203-206) repeats the first, since
      the key is not given an `.__init__` form. */
  function ResolveRelative(idx: ModuleIndex, name: string, fromFile: Path, level: nat): (r: Option<Path>)
    requires level >= 1
    ensures RelativeTo(fromFile, idx.root).None? ==> r.None?
    ensures RelativeTo(fromFile, idx.root).Some? && level > |ImporterDir(RelativeTo(fromFile, idx.root).value)| + 1
      ==> r.None?
    ensures RelativeTo(fromFile, idx.root).Some? ==>
      var pkg := ImporterDir(RelativeTo(fromFile, idx.root).value);
      level <= |pkg| + 1 ==> r == Get(idx.fileIndex, Join(pkg[..|pkg| - (level - 1)] + NameParts(name), '.'))
    ensures r.Some? ==> r.value in idx.fileIndex.Values
  {
    match RelativeTo(fromFile, idx.root)
    case None => None
    case Some(rel) =>
      var pkg := ImporterDir(rel);
      if level > |pkg| + 1 then None
      else
        var base := if level > 1 then (if |pkg| >= level - 1 then pkg[..|pkg| - (level - 1)] else []) else pkg;
        var target := if name != "" then base + Split(name, '.') else base;
        assert level == 1 ==> pkg[..|pkg| - (level - 1)] == pkg;
        assert target == pkg[..|pkg| - (level - 1)] + NameParts(name);
        var key := Join(target, '.');
        var first := Get(idx.fileIndex, key);
        if first.Some? then first
        else if key != "" then Get(idx.fileIndex, key)
        else None
  }

  /** `resolve_import`: level 0 is absolute, any other level relative. */
  function ResolveImport(idx: ModuleIndex, name: string, fromFile: Path, level: nat): (r: Option<Path>)
    ensures r.Some? ==> r.value in idx.fileIndex.Values
    ensures level == 0 && (name == "" || TopLevel(name) in StdlibModules) ==> r.None?
  {
    if level == 0 then ResolveAbsolute(idx, name, fromFile)
    else ResolveRelative(idx, name, fromFile, level)
  }

  /** `is_external`: a non-empty, non-standard-library name that is neither
      indexed nor indexed in its `.__init__` form. */
  function IsExternal(idx: ModuleIndex, name: string): (r: bool)
    ensures r <==> name != "" && TopLevel(name) !in StdlibModules && LookupModule(idx.fileIndex, name).None?
  {
    if name == "" then false
    else if TopLevel(name) in StdlibModules then false
    else if name in idx.fileIndex then false
    else if InitForm(name) in idx.fileIndex then false
    else true
  }
}

/** The resolution cascade restated as an ordered list of candidate keys:
    absolute resolution returns the entry of the first candidate present in
    the index. */
module ResolverCascade {
  import opened Wrappers
  import opened Strings
  import opened Paths
  import opened Resolver

  /** The entry of the first key of `keys` present in the index. */
  function FirstHit(fileIndex: map<string, Path>, keys: seq<string>): Option<Path>
    decreases |keys|
  {
    if |keys| == 0 then None
    else if keys[0] in fileIndex then Some(fileIndex[keys[0]])
    else FirstHit(fileIndex, keys[1..])
  }

  /** `FirstHit` finds something exactly when some key is indexed, and then
      the entry of the earliest indexed key. */
  lemma {:induction false} FirstHitIsEarliest(fileIndex: map<string, Path>, keys: seq<string>)
    ensures FirstHit(fileIndex, keys).Some? <==> exists i :: 0 <= i < |keys| && keys[i] in fileIndex
    ensures FirstHit(fileIndex, keys).Some? ==> exists i :: (0 <= i < |keys| && keys[i] in fileIndex
      && FirstHit(fileIndex, keys).value == fileIndex[keys[i]]
      && forall j :: 0 <= j < i ==> keys[j] !in fileIndex)
    decreases |keys|
  {
    if |keys| > 0 && keys[0] !in fileIndex {
      FirstHitIsEarliest(fileIndex, keys[1..]);
      assert forall i :: 0 < i < |keys| ==> keys[i] == keys[1..][i - 1];
      if FirstHit(fileIndex, keys).Some? {
        var i :| 0 <= i < |keys[1..]| && keys[1..][i] in fileIndex
          && FirstHit(fileIndex, keys[1..]).value == fileIndex[keys[1..][i]]
          && forall j :: 0 <= j < i ==> keys[1..][j] !in fileIndex;
        assert forall j :: 0 <= j < i + 1 ==> keys[j] !in fileIndex by {
          forall j | 0 < j < i + 1 ensures keys[j] !in fileIndex {
            assert keys[j] == keys[1..][j - 1];
          }
        }
      }
    } else if |keys| > 0 {
      assert keys[0] in fileIndex;
    }
  }

  lemma {:induction false} FirstHitConcat(fileIndex: map<string, Path>, a: seq<string>, b: seq<string>)
    ensures FirstHit(fileIndex, a + b) ==
      (if FirstHit(fileIndex, a).Some? then FirstHit(fileIndex, a) else FirstHit(fileIndex, b))
    decreases |a|
  {
    if |a| > 0 {
      assert (a + b)[0] == a[0];
      assert (a + b)[1..] == a[1..] + b;
      FirstHitConcat(fileIndex, a[1..], b);
    } else {
      assert a + b == b;
    }
  }

  /** A name followed by its `.__init__` form. */
  function PairKeys(name: string): seq<string> {
    [name, InitForm(name)]
  }

  function RootKeys(idx: ModuleIndex, name: string): seq<string> {
    if RootPrefixed(idx, name) then PairKeys(Stripped(name)) else []
  }

  /** Sibling keys (the importer's directory segments before the name), then,
      only for an importer two or more directories deep, grandparent keys. */
  function NearbyKeys(idx: ModuleIndex, name: string, fromFile: Path): seq<string> {
    match RelativeTo(fromFile, idx.root)
    case None => []
    case Some(rel) =>
      var dir := ImporterDir(rel);
      (if |dir| > 0 then PairKeys(Join(dir + [name], '.')) else [])
      + (if |dir| > 1 then PairKeys(Join(Parent(dir) + Split(name, '.'), '.')) else [])
  }

  /** Proper dotted prefixes, longest first. */
  function PrefixKeys(parts: seq<string>, i: nat): seq<string>
    requires i <= |parts|
    decreases i
  {
    if i == 0 then [] else PairKeys(Join(parts[..i], '.')) + PrefixKeys(parts, i - 1)
  }

  function CandidateKeys(idx: ModuleIndex, name: string, fromFile: Path): seq<string> {
    var parts := Split(name, '.');
    RootKeys(idx, name) + PairKeys(name) + NearbyKeys(idx, name, fromFile) + PrefixKeys(parts, |parts| - 1)
  }

  lemma LookupIsFirstHit(fileIndex: map<string, Path>, name: string)
    ensures LookupModule(fileIndex, name) == FirstHit(fileIndex, PairKeys(name))
  {
    var keys := PairKeys(name);
    assert keys[0] == name && keys[1..] == [InitForm(name)];
    assert keys[1..][1..] == [];
    assert FirstHit(fileIndex, keys[1..][1..]) == None;
    assert FirstHit(fileIndex, keys[1..]) == Get(fileIndex, InitForm(name));
  }

  lemma {:induction false} PrefixIsFirstHit(fileIndex: map<string, Path>, parts: seq<string>, i: nat)
    requires i <= |parts|
    ensures PrefixLookup(fileIndex, parts, i) == FirstHit(fileIndex, PrefixKeys(parts, i))
    decreases i
  {
    if i > 0 {
      PrefixIsFirstHit(fileIndex, parts, i - 1);
      LookupIsFirstHit(fileIndex, Join(parts[..i], '.'));
      FirstHitConcat(fileIndex, PairKeys(Join(parts[..i], '.')), PrefixKeys(parts, i - 1));
    }
  }

  lemma NearbyIsFirstHit(idx: ModuleIndex, name: string, fromFile: Path)
    ensures NearbyLookup(idx, name, fromFile) == FirstHit(idx.fileIndex, NearbyKeys(idx, name, fromFile))
  {
    match RelativeTo(fromFile, idx.root)
    case None =>
    case Some(rel) =>
      var dir := ImporterDir(rel);
      var sib := if |dir| > 0 then PairKeys(Join(dir + [name], '.')) else [];
      var par := if |dir| > 1 then PairKeys(Join(Parent(dir) + Split(name, '.'), '.')) else [];
      FirstHitConcat(idx.fileIndex, sib, par);
      if |dir| > 0 {
        LookupIsFirstHit(idx.fileIndex, Join(dir + [name], '.'));
      }
      if |dir| > 1 {
        LookupIsFirstHit(idx.fileIndex, Join(Parent(dir) + Split(name, '.'), '.'));
      }
  }

  /** Absolute resolution of a non-empty, non-standard-library name returns
      the entry of the first candidate key in the index: the root-stripped
      name, the name, its sibling and grandparent forms, then its proper
      prefixes from longest to shortest; each in bare and `.__init__` form. */
  lemma ResolveAbsoluteIsFirstHit(idx: ModuleIndex, name: string, fromFile: Path)
    requires name != "" && TopLevel(name) !in StdlibModules
    ensures ResolveAbsolute(idx, name, fromFile) == FirstHit(idx.fileIndex, CandidateKeys(idx, name, fromFile))
  {
    var fi := idx.fileIndex;
    var parts := Split(name, '.');
    RootIsFirstHit(idx, name);
    LookupIsFirstHit(fi, name);
    NearbyIsFirstHit(idx, name, fromFile);
    PrefixIsFirstHit(fi, parts, |parts| - 1);
    FirstHitConcat4(fi, RootKeys(idx, name), PairKeys(name), NearbyKeys(idx, name, fromFile), PrefixKeys(parts, |parts| - 1));
  }

  lemma RootIsFirstHit(idx: ModuleIndex, name: string)
    ensures RootStrippedLookup(idx, name) == FirstHit(idx.fileIndex, RootKeys(idx, name))
  {
    if RootPrefixed(idx, name) {
      LookupIsFirstHit(idx.fileIndex, Stripped(name));
    }
  }

  /** The first hit in four lists laid end to end is the first hit of the
      first list that has one. */
  lemma FirstHitConcat4(fi: map<string, Path>, a: seq<string>, b: seq<string>, c: seq<string>, d: seq<string>)
    ensures FirstHit(fi, a + b + c + d) ==
      if FirstHit(fi, a).Some? then FirstHit(fi, a)
      else if FirstHit(fi, b).Some? then FirstHit(fi, b)
      else if FirstHit(fi, c).Some? then FirstHit(fi, c)
      else FirstHit(fi, d)
  {
    FirstHitConcat(fi, c, d);
    FirstHitConcat(fi, b, c + d);
    FirstHitConcat(fi, a, b + (c + d));
    assert a + b + c + d == a + (b + (c + d));
  }

  /** A name that is not external and not standard-library always resolves,
      wherever it is imported from; so an unresolved name of that kind is
      external. */
  lemma UnresolvedIsExternal(idx: ModuleIndex, name: string, fromFile: Path)
    requires name != "" && TopLevel(name) !in StdlibModules
    ensures ResolveAbsolute(idx, name, fromFile).None? ==> IsExternal(idx, name)
    ensures !IsExternal(idx, name) ==> ResolveAbsolute(idx, name, fromFile).Some?
  {
  }
}
