/** The project tree of the resolver's unit tests, and what resolves in it. */
module ResolverExamples {
  import opened Wrappers
  import opened Strings
  import opened Paths
  import opened Resolver

  const Root: Path := ["tmp", "proj"]

  /** `main.py`, package `mypackage` with `module.py` and subpackage `subpkg`
      holding `helper.py`, and package `utils` with `common.py`. */
  const Walk: seq<Path> := [
    ["main.py"],
    ["mypackage", "__init__.py"], ["mypackage", "module.py"],
    ["mypackage", "subpkg", "__init__.py"], ["mypackage", "subpkg", "helper.py"],
    ["utils", "__init__.py"], ["utils", "common.py"]
  ]

  function Index(): ModuleIndex {
    BuildIndex(Root, Walk)
  }

  /** The index the walk produces. */
  const Expected: map<string, Path> := map[
    "main" := Root + ["main.py"],
    "mypackage" := Root + ["mypackage", "__init__.py"],
    "mypackage.module" := Root + ["mypackage", "module.py"],
    "mypackage.subpkg" := Root + ["mypackage", "subpkg", "__init__.py"],
    "mypackage.subpkg.helper" := Root + ["mypackage", "subpkg", "helper.py"],
    "utils" := Root + ["utils", "__init__.py"],
    "utils.common" := Root + ["utils", "common.py"]]

  /** The entries of the first four files of the walk. */
  lemma IndexFront()
    ensures FileIndex(Root, Walk[..4]) == map[
      "main" := Root + ["main.py"],
      "mypackage" := Root + ["mypackage", "__init__.py"],
      "mypackage.module" := Root + ["mypackage", "module.py"],
      "mypackage.subpkg" := Root + ["mypackage", "subpkg", "__init__.py"]]
  {
    KeysTop();
    KeysModule();
    KeysSubpkg();
    var m0: map<string, Path> := map[];
    var m1 := m0["main" := Root + Walk[0]];
    var m2 := m1["mypackage" := Root + Walk[1]];
    var m3 := m2["mypackage.module" := Root + Walk[2]];
    Snoc(Walk[..0], Walk[0], "main", m0);
    assert Walk[..0] + [Walk[0]] == Walk[..1];
    Snoc(Walk[..1], Walk[1], "mypackage", m1);
    assert Walk[..1] + [Walk[1]] == Walk[..2];
    Snoc(Walk[..2], Walk[2], "mypackage.module", m2);
    assert Walk[..2] + [Walk[2]] == Walk[..3];
    Snoc(Walk[..3], Walk[3], "mypackage.subpkg", m3);
    assert Walk[..3] + [Walk[3]] == Walk[..4];
  }

  lemma IndexKeys()
    ensures Index().root == Root && Index().fileIndex == Expected
  {
    IndexFront();
    KeysTop();
    KeysModule();
    KeysHelper();
    var m4 := FileIndex(Root, Walk[..4]);
    var m5 := m4["mypackage.subpkg.helper" := Root + Walk[4]];
    var m6 := m5["utils" := Root + Walk[5]];
    Snoc(Walk[..4], Walk[4], "mypackage.subpkg.helper", m4);
    assert Walk[..4] + [Walk[4]] == Walk[..5];
    Snoc(Walk[..5], Walk[5], "utils", m5);
    assert Walk[..5] + [Walk[5]] == Walk[..6];
    Snoc(Walk[..6], Walk[6], "utils.common", m6);
    assert Walk[..6] + [Walk[6]] == Walk[..7];
    assert Walk[..7] == Walk;
  }

  lemma Join2(a: string, b: string)
    ensures Join([a, b], '.') == a + "." + b
  {
    assert [a, b][1..] == [b];
  }

  lemma Join3(a: string, b: string, c: string)
    ensures Join([a, b, c], '.') == a + "." + b + "." + c
  {
    assert [a, b, c][1..] == [b, c];
    Join2(b, c);
  }

  /** The dotted names of the example, spelled out once each. */
  lemma DottedModule() ensures "mypackage" + "." + "module" == "mypackage.module" {}
  lemma DottedSubpkg() ensures "mypackage" + "." + "subpkg" == "mypackage.subpkg" {}
  lemma DottedCommon() ensures "utils" + "." + "common" == "utils.common" {}
  lemma DottedOsPath() ensures "os" + "." + "path" == "os.path" {}

  lemma DottedHelper()
    ensures "mypackage" + "." + "subpkg" + "." + "helper" == "mypackage.subpkg.helper"
  {
    DottedSubpkg();
    assert "mypackage.subpkg" + "." + "helper" == "mypackage.subpkg.helper";
  }

  lemma KeysTop()
    ensures PathToModule(["main.py"]) == "main" && IsIndexed(["main.py"])
    ensures PathToModule(["mypackage", "__init__.py"]) == "mypackage" && IsIndexed(["mypackage", "__init__.py"])
    ensures PathToModule(["utils", "__init__.py"]) == "utils" && IsIndexed(["utils", "__init__.py"])
  {
    KeyOf([], "main", "main");
    InitKeyOf(["mypackage"], "mypackage");
    InitKeyOf(["utils"], "utils");
  }

  lemma KeysModule()
    ensures PathToModule(["mypackage", "module.py"]) == "mypackage.module" && IsIndexed(["mypackage", "module.py"])
    ensures PathToModule(["utils", "common.py"]) == "utils.common" && IsIndexed(["utils", "common.py"])
  {
    Join2("mypackage", "module");
    DottedModule();
    KeyOf(["mypackage"], "module", "mypackage.module");
    Join2("utils", "common");
    DottedCommon();
    KeyOf(["utils"], "common", "utils.common");
  }

  lemma KeysSubpkg()
    ensures PathToModule(["mypackage", "subpkg", "__init__.py"]) == "mypackage.subpkg"
      && IsIndexed(["mypackage", "subpkg", "__init__.py"])
  {
    Join2("mypackage", "subpkg");
    DottedSubpkg();
    InitKeyOf(["mypackage", "subpkg"], "mypackage.subpkg");
  }

  lemma KeysHelper()
    ensures PathToModule(["mypackage", "subpkg", "helper.py"]) == "mypackage.subpkg.helper"
      && IsIndexed(["mypackage", "subpkg", "helper.py"])
  {
    Join3("mypackage", "subpkg", "helper");
    DottedHelper();
    KeyOf(["mypackage", "subpkg"], "helper", "mypackage.subpkg.helper");
  }

  lemma Snoc(front: seq<Path>, f: Path, key: string, m: map<string, Path>)
    requires FileIndex(Root, front) == m
    requires IsIndexed(f) && PathToModule(f) == key
    ensures FileIndex(Root, front + [f]) == m[key := Root + f]
  {
    assert (front + [f])[..|front|] == front;
  }

  lemma KeyOf(dir: Path, stem: string, key: string)
    requires stem != "" && stem != "__init__" && Join(dir + [stem], '.') == key
    ensures PathToModule(dir + [stem + ".py"]) == key
    ensures IsIndexed(dir + [stem + ".py"])
  {
    ModuleKey(dir, stem);
    assert Name(dir + [stem + ".py"]) == stem + ".py";
  }

  lemma InitKeyOf(dir: Path, key: string)
    requires Join(dir, '.') == key
    ensures PathToModule(dir + ["__init__.py"]) == key
    ensures IsIndexed(dir + ["__init__.py"])
  {
    PackageInitKey(dir);
    assert Name(dir + ["__init__.py"]) == "__init__.py";
  }
}

module ResolverTests {
  import opened Wrappers
  import opened Strings
  import opened Paths
  import opened Resolver
  import opened ResolverExamples

  lemma Parts(a: string, b: string, ab: string)
    requires '.' !in a && '.' !in b && ab == a + "." + b
    ensures Split(ab, '.') == [a, b]
    ensures TopLevel(ab) == a
  {
    Join2(a, b);
    SplitJoin([a, b], '.');
  }

  lemma Single(a: string)
    requires '.' !in a
    ensures Split(a, '.') == [a] && TopLevel(a) == a
  {
    SplitJoin([a], '.');
  }

  /** A name in neither half of the list is not a standard-library module. */
  lemma NotStdlibName(x: string)
    requires x !in StdlibAToL && x !in StdlibMToZ
    ensures x !in StdlibModules
  {
  }

  /** The project's own top-level names, and the third-party ones used
      below, are not standard-library modules. */
  lemma NotStdlibMain() ensures "main" !in StdlibModules { NotStdlibName("main"); }
  lemma NotStdlibPackage() ensures "mypackage" !in StdlibModules { NotStdlibName("mypackage"); }
  lemma NotStdlibUtils() ensures "utils" !in StdlibModules { NotStdlibName("utils"); }
  lemma NotStdlibModule() ensures "module" !in StdlibModules { NotStdlibName("module"); }
  lemma NotStdlibNumpy() ensures "numpy" !in StdlibModules { NotStdlibName("numpy"); }
  lemma NotStdlibRequests() ensures "requests" !in StdlibModules { NotStdlibName("requests"); }

  /** Any index with the example root and entries. */
  predicate IsExample(idx: ModuleIndex) {
    idx.root == Root && idx.fileIndex == Expected
  }

  /** `name` is resolved absolutely by its own index entry `file`: it is
      not standard-library, not root-prefixed, and indexed. */
  predicate DirectHit(idx: ModuleIndex, name: string, file: Path) {
    && name != "" && TopLevel(name) !in StdlibModules && !RootPrefixed(idx, name)
    && name in idx.fileIndex && idx.fileIndex[name] == file
  }

  lemma AbsoluteDirect(idx: ModuleIndex, name: string, fromFile: Path, file: Path)
    requires DirectHit(idx, name, file)
    ensures ResolveImport(idx, name, fromFile, 0) == Some(file)
  {
    assert RootStrippedLookup(idx, name).None?;
  }

  /** `name` is a single segment that is not standard-library, not
      root-prefixed, indexed in neither form and not found next to the
      importer. */
  predicate AbsoluteMisses(idx: ModuleIndex, name: string, fromFile: Path) {
    && name != "" && TopLevel(name) !in StdlibModules && !RootPrefixed(idx, name)
    && name !in idx.fileIndex && InitForm(name) !in idx.fileIndex
    && NearbyLookup(idx, name, fromFile).None? && Split(name, '.') == [name]
  }

  lemma AbsoluteMiss(idx: ModuleIndex, name: string, fromFile: Path)
    requires AbsoluteMisses(idx, name, fromFile)
    ensures ResolveImport(idx, name, fromFile, 0) == None
  {
    assert RootStrippedLookup(idx, name).None?;
    assert LookupModule(idx.fileIndex, name).None?;
  }

  /** A file below the example root, seen relative to it. */
  lemma ImportedFrom(rel: Path)
    ensures RelativeTo(Root + rel, Root) == Some(rel)
  {
    assert (Root + rel)[|Root|..] == rel;
  }

  /** A relative import of `name` at `level` from `Root + rel` stays inside
      the root, and the package path joined to the name is the key of
      `file`. */
  predicate RelativeHit(idx: ModuleIndex, name: string, rel: Path, level: nat, file: Path) {
    && idx.root == Root && 1 <= level <= |ImporterDir(rel)| + 1
    && var key := Join(ImporterDir(rel)[..|ImporterDir(rel)| - (level - 1)] + NameParts(name), '.');
       key in idx.fileIndex && idx.fileIndex[key] == file
  }

  lemma RelativeAt(idx: ModuleIndex, name: string, rel: Path, level: nat, file: Path)
    requires RelativeHit(idx, name, rel, level, file)
    ensures ResolveImport(idx, name, Root + rel, level) == Some(file)
  {
    ImportedFrom(rel);
  }

  /** The example root is named `proj`, so no name below starts with it. */
  lemma NotRootPrefixed(idx: ModuleIndex, name: string)
    requires idx.root == Root && TopLevel(name) != "proj"
    ensures !RootPrefixed(idx, name)
  {
    assert Name(Root) == "proj";
  }

  lemma MainHit(idx: ModuleIndex)
    requires IsExample(idx)
    ensures DirectHit(idx, "main", Root + ["main.py"])
  {
    Single("main");
    NotStdlibMain();
    NotRootPrefixed(idx, "main");
  }

  lemma PackageHit(idx: ModuleIndex)
    requires IsExample(idx)
    ensures DirectHit(idx, "mypackage", Root + ["mypackage", "__init__.py"])
  {
    Single("mypackage");
    NotStdlibPackage();
    NotRootPrefixed(idx, "mypackage");
  }

  lemma DottedHit(idx: ModuleIndex)
    requires IsExample(idx)
    ensures DirectHit(idx, "mypackage.module", Root + ["mypackage", "module.py"])
  {
    DottedModule();
    Parts("mypackage", "module", "mypackage.module");
    NotStdlibPackage();
    NotRootPrefixed(idx, "mypackage.module");
  }

  lemma SubpkgHit(idx: ModuleIndex)
    requires IsExample(idx)
    ensures DirectHit(idx, "mypackage.subpkg", Root + ["mypackage", "subpkg", "__init__.py"])
  {
    DottedSubpkg();
    Parts("mypackage", "subpkg", "mypackage.subpkg");
    NotStdlibPackage();
    NotRootPrefixed(idx, "mypackage.subpkg");
  }

  lemma NestedHit(idx: ModuleIndex)
    requires IsExample(idx)
    ensures DirectHit(idx, "mypackage.subpkg.helper", Root + ["mypackage", "subpkg", "helper.py"])
  {
    NestedTopLevel();
    NotStdlibPackage();
    NotRootPrefixed(idx, "mypackage.subpkg.helper");
  }

  lemma NumpyMisses(idx: ModuleIndex)
    requires IsExample(idx)
    ensures AbsoluteMisses(idx, "numpy", Root + ["main.py"])
  {
    Single("numpy");
    NotStdlibNumpy();
    NotRootPrefixed(idx, "numpy");
    NumpyUnindexed();
    ImportedFrom(["main.py"]);
    assert ImporterDir(["main.py"]) == [];
  }

  /** Assembles a relative hit from the importer's directory `dir` and the
      dotted `key` it leads to. */
  lemma RelativeHitVia(idx: ModuleIndex, name: string, rel: Path, level: nat, file: Path, dir: Path, key: string)
    requires idx.root == Root && ImporterDir(rel) == dir && 1 <= level <= |dir| + 1
    requires Join(dir[..|dir| - (level - 1)] + NameParts(name), '.') == key
    requires key in idx.fileIndex && idx.fileIndex[key] == file
    ensures RelativeHit(idx, name, rel, level, file)
  {
  }

  lemma SiblingKey()
    ensures ImporterDir(["mypackage", "other.py"]) == ["mypackage"]
    ensures Join(["mypackage"][..1] + NameParts("module"), '.') == "mypackage.module"
  {
    Single("module");
    Join2("mypackage", "module");
    DottedModule();
    assert ["mypackage"][..1] + NameParts("module") == ["mypackage", "module"];
  }

  lemma SiblingHit(idx: ModuleIndex)
    requires IsExample(idx)
    ensures RelativeHit(idx, "module", ["mypackage", "other.py"], 1, Root + ["mypackage", "module.py"])
  {
    SiblingKey();
    RelativeHitVia(idx, "module", ["mypackage", "other.py"], 1, Root + ["mypackage", "module.py"],
      ["mypackage"], "mypackage.module");
  }

  lemma ParentPackageKey()
    ensures ImporterDir(["mypackage", "subpkg", "helper.py"]) == ["mypackage", "subpkg"]
    ensures Join(["mypackage", "subpkg"][..1] + NameParts(""), '.') == "mypackage"
  {
    assert ["mypackage", "subpkg"][..1] + NameParts("") == ["mypackage"];
    assert Join(["mypackage"], '.') == "mypackage";
  }

  lemma ParentPackageHit(idx: ModuleIndex)
    requires IsExample(idx)
    ensures RelativeHit(idx, "", ["mypackage", "subpkg", "helper.py"], 2, Root + ["mypackage", "__init__.py"])
  {
    ParentPackageKey();
    RelativeHitVia(idx, "", ["mypackage", "subpkg", "helper.py"], 2, Root + ["mypackage", "__init__.py"],
      ["mypackage", "subpkg"], "mypackage");
  }

  lemma BeyondPackageKey()
    ensures ImporterDir(["mypackage", "module.py"]) == ["mypackage"]
    ensures Join(["mypackage"][..0] + NameParts("utils.common"), '.') == "utils.common"
  {
    UtilsCommonKey();
    assert ["mypackage"][..0] + NameParts("utils.common") == ["utils", "common"];
  }

  lemma BeyondPackageHit(idx: ModuleIndex)
    requires IsExample(idx)
    ensures RelativeHit(idx, "utils.common", ["mypackage", "module.py"], 2, Root + ["utils", "common.py"])
  {
    BeyondPackageKey();
    RelativeHitVia(idx, "utils.common", ["mypackage", "module.py"], 2, Root + ["utils", "common.py"],
      ["mypackage"], "utils.common");
  }

  /** `import main` resolves to `main.py`. */
  lemma ResolvesMain(idx: ModuleIndex)
    requires IsExample(idx)
    ensures ResolveImport(idx, "main", Root + ["other.py"], 0) == Some(Root + ["main.py"])
  {
    MainHit(idx);
    AbsoluteDirect(idx, "main", Root + ["other.py"], Root + ["main.py"]);
  }

  /** `import mypackage` resolves to the package initializer. */
  lemma ResolvesPackage(idx: ModuleIndex)
    requires IsExample(idx)
    ensures ResolveImport(idx, "mypackage", Root + ["main.py"], 0) == Some(Root + ["mypackage", "__init__.py"])
  {
    PackageHit(idx);
    AbsoluteDirect(idx, "mypackage", Root + ["main.py"], Root + ["mypackage", "__init__.py"]);
  }

  /** `import mypackage.module` resolves to the module file. */
  lemma ResolvesDotted(idx: ModuleIndex)
    requires IsExample(idx)
    ensures ResolveImport(idx, "mypackage.module", Root + ["main.py"], 0) == Some(Root + ["mypackage", "module.py"])
  {
    DottedHit(idx);
    AbsoluteDirect(idx, "mypackage.module", Root + ["main.py"], Root + ["mypackage", "module.py"]);
  }

  /** `import mypackage.subpkg` resolves to the subpackage's initializer. */
  lemma ResolvesSubpackage(idx: ModuleIndex)
    requires IsExample(idx)
    ensures ResolveImport(idx, "mypackage.subpkg", Root + ["main.py"], 0)
      == Some(Root + ["mypackage", "subpkg", "__init__.py"])
  {
    SubpkgHit(idx);
    AbsoluteDirect(idx, "mypackage.subpkg", Root + ["main.py"], Root + ["mypackage", "subpkg", "__init__.py"]);
  }

  /** `import mypackage.subpkg.helper` resolves two packages deep. */
  lemma ResolvesNested(idx: ModuleIndex)
    requires IsExample(idx)
    ensures ResolveImport(idx, "mypackage.subpkg.helper", Root + ["main.py"], 0)
      == Some(Root + ["mypackage", "subpkg", "helper.py"])
  {
    NestedHit(idx);
    AbsoluteDirect(idx, "mypackage.subpkg.helper", Root + ["main.py"], Root + ["mypackage", "subpkg", "helper.py"]);
  }

  lemma NestedTopLevel()
    ensures TopLevel("mypackage.subpkg.helper") == "mypackage"
  {
    Join3("mypackage", "subpkg", "helper");
    DottedHelper();
    SplitJoin(["mypackage", "subpkg", "helper"], '.');
  }

  lemma UtilsCommonKey()
    ensures NameParts("utils.common") == ["utils", "common"]
    ensures Join(["utils", "common"], '.') == "utils.common"
  {
    DottedCommon();
    Parts("utils", "common", "utils.common");
    Join2("utils", "common");
  }

  /** Names with no entry in the example index. */
  lemma NotIndexed(name: string)
    requires name !in {"main", "mypackage", "mypackage.module", "mypackage.subpkg",
                       "mypackage.subpkg.helper", "utils", "utils.common"}
    ensures name !in Expected
  {
  }

  /** `requests` is indexed in neither form. */
  lemma RequestsUnindexed()
    ensures "requests" !in Expected && InitForm("requests") !in Expected
  {
    assert InitForm("requests") == "requests.__init__";
    NotIndexed("requests");
    NotIndexed("requests.__init__");
  }

  /** `numpy` is indexed in neither form. */
  lemma NumpyUnindexed()
    ensures "numpy" !in Expected && InitForm("numpy") !in Expected
  {
    assert InitForm("numpy") == "numpy.__init__";
    NotIndexed("numpy");
    NotIndexed("numpy.__init__");
  }

  /** `os` and `os.path` have a standard-library top-level name. */
  lemma OsNames()
    ensures TopLevel("os") in StdlibModules && TopLevel("os.path") in StdlibModules
  {
    Single("os");
    DottedOsPath();
    Parts("os", "path", "os.path");
  }

  /** Standard-library names do not resolve, whole or dotted. */
  lemma StdlibUnresolved(idx: ModuleIndex)
    requires IsExample(idx)
    ensures ResolveImport(idx, "os", Root + ["main.py"], 0) == None
    ensures ResolveImport(idx, "os.path", Root + ["main.py"], 0) == None
  {
    OsNames();
  }

  /** A third-party name that no file provides does not resolve. */
  lemma UnknownUnresolved(idx: ModuleIndex)
    requires IsExample(idx)
    ensures ResolveImport(idx, "numpy", Root + ["main.py"], 0) == None
  {
    NumpyMisses(idx);
    AbsoluteMiss(idx, "numpy", Root + ["main.py"]);
  }

  /** `from . import module` inside `mypackage`. */
  lemma RelativeSibling(idx: ModuleIndex)
    requires IsExample(idx)
    ensures ResolveImport(idx, "module", Root + ["mypackage", "other.py"], 1) == Some(Root + ["mypackage", "module.py"])
  {
    SiblingHit(idx);
    RelativeAt(idx, "module", ["mypackage", "other.py"], 1, Root + ["mypackage", "module.py"]);
  }

  /** `from .. import x` in `mypackage/subpkg/helper.py` names `mypackage`. */
  lemma RelativeParentPackage(idx: ModuleIndex)
    requires IsExample(idx)
    ensures ResolveImport(idx, "", Root + ["mypackage", "subpkg", "helper.py"], 2)
      == Some(Root + ["mypackage", "__init__.py"])
  {
    ParentPackageHit(idx);
    RelativeAt(idx, "", ["mypackage", "subpkg", "helper.py"], 2, Root + ["mypackage", "__init__.py"]);
  }

  /** `from ..utils import common` in `mypackage/module.py` climbs out of
      `mypackage` to the root and finds `utils/common.py`. */
  lemma RelativeBeyondPackage(idx: ModuleIndex)
    requires IsExample(idx)
    ensures ResolveImport(idx, "utils.common", Root + ["mypackage", "module.py"], 2)
      == Some(Root + ["utils", "common.py"])
  {
    BeyondPackageHit(idx);
    RelativeAt(idx, "utils.common", ["mypackage", "module.py"], 2, Root + ["utils", "common.py"]);
  }

  /** `name` is a non-empty, non-standard-library name indexed in neither
      form. */
  predicate Unprovided(idx: ModuleIndex, name: string) {
    name != "" && TopLevel(name) !in StdlibModules && name !in idx.fileIndex && InitForm(name) !in idx.fileIndex
  }

  lemma RequestsUnprovided(idx: ModuleIndex)
    requires IsExample(idx)
    ensures Unprovided(idx, "requests")
  {
    Single("requests");
    NotStdlibRequests();
    RequestsUnindexed();
  }

  lemma NumpyUnprovided(idx: ModuleIndex)
    requires IsExample(idx)
    ensures Unprovided(idx, "numpy")
  {
    Single("numpy");
    NotStdlibNumpy();
    NumpyUnindexed();
  }

  /** Standard-library and resolvable names are internal; the rest external. */
  lemma ExternalNames(idx: ModuleIndex)
    requires IsExample(idx)
    ensures !IsExternal(idx, "os") && !IsExternal(idx, "main") && !IsExternal(idx, "mypackage")
  {
    OsNames();
    MainHit(idx);
    PackageHit(idx);
  }

  lemma ExternalRequests(idx: ModuleIndex)
    requires IsExample(idx)
    ensures IsExternal(idx, "requests")
  {
    RequestsUnprovided(idx);
  }

  lemma ExternalNumpy(idx: ModuleIndex)
    requires IsExample(idx)
    ensures IsExternal(idx, "numpy")
  {
    NumpyUnprovided(idx);
  }

  // ----- index building and package detection -----

  /** `app.py` and package `pkg` holding `mod.py`. */
  const IndexWalk: seq<Path> := [["app.py"], ["pkg", "__init__.py"], ["pkg", "mod.py"]]

  /** A top-level file is keyed by its stem, a package initializer by its
      directory, a module in a package by the dotted path. */
  lemma IndexBuilt()
    ensures BuildIndex(Root, IndexWalk).fileIndex == map[
      "app" := Root + ["app.py"],
      "pkg" := Root + ["pkg", "__init__.py"],
      "pkg.mod" := Root + ["pkg", "mod.py"]]
  {
    IndexWalkFront();
    KeyPkgMod();
    var m2 := FileIndex(Root, IndexWalk[..2]);
    Snoc(IndexWalk[..2], IndexWalk[2], "pkg.mod", m2);
    assert IndexWalk[..2] + [IndexWalk[2]] == IndexWalk;
  }

  lemma KeyPkgMod()
    ensures PathToModule(["pkg", "mod.py"]) == "pkg.mod" && IsIndexed(["pkg", "mod.py"])
  {
    Join2("pkg", "mod");
    assert "pkg" + "." + "mod" == "pkg.mod";
    KeyOf(["pkg"], "mod", "pkg.mod");
  }

  lemma IndexWalkFront()
    ensures FileIndex(Root, IndexWalk[..2]) == map["app" := Root + ["app.py"], "pkg" := Root + ["pkg", "__init__.py"]]
  {
    KeyOf([], "app", "app");
    InitKeyOf(["pkg"], "pkg");
    var m0: map<string, Path> := map[];
    var m1 := m0["app" := Root + IndexWalk[0]];
    Snoc(IndexWalk[..0], IndexWalk[0], "app", m0);
    assert IndexWalk[..0] + [IndexWalk[0]] == IndexWalk[..1];
    Snoc(IndexWalk[..1], IndexWalk[1], "pkg", m1);
    assert IndexWalk[..1] + [IndexWalk[1]] == IndexWalk[..2];
  }

  /** `package` holds an `__init__.py`; `notpackage` holds only `module.py`. */
  const PackageWalk: seq<Path> := [["package", "__init__.py"], ["notpackage", "module.py"]]

  /** A directory is a package exactly when it holds an `__init__.py`. */
  lemma PackagesDetected()
    ensures Root + ["package"] in BuildIndex(Root, PackageWalk).packageDirs
    ensures Root + ["notpackage"] !in BuildIndex(Root, PackageWalk).packageDirs
  {
    var dirs := BuildIndex(Root, PackageWalk).packageDirs;
    assert Name(PackageWalk[0]) == "__init__.py" && Parent(PackageWalk[0]) == ["package"];
    assert Name(PackageWalk[1]) == "module.py";
    assert Root + ["notpackage"] != Root + ["package"] by {
      assert (Root + ["notpackage"])[|Root|] != (Root + ["package"])[|Root|];
    }
  }
}
