/** The directory trees of the scanner unit tests, and a tree with a hidden
    file, a symlinked directory and an unreadable directory. */
module ScannerExamples {
  import opened Wrappers
  import opened Strings
  import opened Paths
  import opened Dicts
  import opened Scanner

  /** `a.py`, `b.py` and `c.txt` side by side. */
  const Flat: seq<Entry> := [File("a.py", false), File("b.py", false), File("c.txt", false)]

  /** `main.py` and `sub/module.py`. */
  const Nested: seq<Entry> := [File("main.py", false), Dir("sub", false, true, [File("module.py", false)])]

  /** `main.py`, `__pycache__/cached.py` and `.git/config.py`. */
  const Caches: seq<Entry> := [
    File("main.py", false),
    Dir("__pycache__", false, true, [File("cached.py", false)]),
    Dir(".git", false, true, [File("config.py", false)])]

  /** `app.py` and `venv/lib.py`. */
  const Venv: seq<Entry> := [
    File("app.py", false),
    Dir("venv", false, true, [File("lib.py", false)])]

  /** A hidden file, a link to a directory, a hidden directory and a
      directory that cannot be listed. */
  const Guarded: seq<Entry> := [
    File(".setup.py", false),
    Dir("link", true, true, [File("x.py", false)]),
    Dir(".cache", false, true, [File("y.py", false)]),
    Dir("locked", false, false, [File("z.py", false)])]

  lemma PyNames()
    ensures EndsWith("a.py", ".py") && EndsWith("b.py", ".py") && !EndsWith("c.txt", ".py")
    ensures EndsWith("main.py", ".py") && EndsWith("module.py", ".py") && EndsWith(".setup.py", ".py")
    ensures EndsWith("app.py", ".py")
  {
    assert "a.py"[1..] == ".py" && "b.py"[1..] == ".py" && "main.py"[4..] == ".py" && "app.py"[3..] == ".py";
    assert "module.py"[6..] == ".py" && ".setup.py"[6..] == ".py";
    assert "c.txt"[2..] != ".py" by {
      assert "c.txt"[2..][0] == 't';
    }
  }

  /** A file entry finds exactly its own name, when that is not skipped and
      ends in `.py`. */
  lemma FileFoundVia(e: Entry, rel: Path, excl: set<string>)
    requires e.File?
    ensures FoundVia(e, rel, excl) <==> rel == [e.name] && !Skipped(e, excl) && EndsWith(e.name, ".py")
  {
    if rel == [e.name] && !Skipped(e, excl) && EndsWith(e.name, ".py") {
      assert FoundVia(e, rel, excl);
    }
  }

  /** A listing of one `.py` file finds exactly that file. */
  lemma SingleFileFound(name: string, rel: Path, excl: set<string>)
    requires name !in excl && EndsWith(name, ".py")
    ensures Found(Some([File(name, false)]), rel, excl) <==> rel == [name]
  {
    FileFoundVia(File(name, false), rel, excl);
    if rel == [name] {
      assert [File(name, false)][0] == File(name, false);
    }
  }

  /** Only the two `.py` files of the flat directory are found. */
  lemma FlatFound(rel: Path)
    ensures Found(Some(Flat), rel, DefaultExcluded) <==> rel == ["a.py"] || rel == ["b.py"]
  {
    PyNames();
    FileFoundVia(Flat[0], rel, DefaultExcluded);
    FileFoundVia(Flat[1], rel, DefaultExcluded);
    FileFoundVia(Flat[2], rel, DefaultExcluded);
  }

  /** The file in the subdirectory is found along with the top-level one. */
  lemma NestedFound(rel: Path)
    ensures Found(Some(Nested), rel, DefaultExcluded) <==> rel == ["main.py"] || rel == ["sub", "module.py"]
  {
    PyNames();
    var sub := Nested[1];
    assert !Skipped(sub, DefaultExcluded) by {
      assert "sub"[0] != "."[0];
    }
    FileFoundVia(Nested[0], rel, DefaultExcluded);
    if |rel| > 1 {
      SingleFileFound("module.py", rel[1..], DefaultExcluded);
      assert rel == [rel[0]] + rel[1..];
    }
    assert FoundVia(sub, rel, DefaultExcluded) <==> rel == ["sub", "module.py"];
  }

  /** `__pycache__` and `.git` are not entered. */
  lemma CachesFound(rel: Path)
    ensures Found(Some(Caches), rel, DefaultExcluded) <==> rel == ["main.py"]
  {
    PyNames();
    if rel == ["main.py"] {
      assert !Skipped(Caches[0], DefaultExcluded) by {
        assert "main.py"[0] != "."[0];
      }
      assert FoundVia(Caches[0], rel, DefaultExcluded);
    }
    assert forall i :: 1 <= i < 3 ==> Caches[i].name in DefaultExcluded;
  }

  /** `venv` is not entered. */
  lemma VenvFound(rel: Path)
    ensures Found(Some(Venv), rel, DefaultExcluded) <==> rel == ["app.py"]
  {
    PyNames();
    if rel == ["app.py"] {
      assert !Skipped(Venv[0], DefaultExcluded) by {
        assert "app.py"[0] != "."[0];
      }
      assert FoundVia(Venv[0], rel, DefaultExcluded);
    }
    assert Venv[1].name in DefaultExcluded;
  }

  /** Nothing is found below the link to a directory, the hidden directory
      or the directory that cannot be listed. */
  lemma GuardedDirsHide(rel: Path)
    ensures !FoundVia(Guarded[1], rel, DefaultExcluded)
    ensures !FoundVia(Guarded[2], rel, DefaultExcluded)
    ensures !FoundVia(Guarded[3], rel, DefaultExcluded)
  {
    assert StartsWith(".cache", ".");
    assert Guarded[3].Listing() == None;
  }

  /** The hidden file is found; nothing below the link, the hidden
      directory or the unreadable directory is. */
  lemma GuardedFound(rel: Path)
    ensures Found(Some(Guarded), rel, DefaultExcluded) <==> rel == [".setup.py"]
  {
    PyNames();
    GuardedDirsHide(rel);
    assert !Skipped(Guarded[0], DefaultExcluded);
    FileFoundVia(Guarded[0], rel, DefaultExcluded);
  }

  /** The test trees list each name once per directory. */
  lemma FlatTidy()
    ensures TidyListing(Some(Flat))
  {
    assert "a.py"[0] != "b.py"[0] && "a.py"[0] != "c.txt"[0] && "b.py"[0] != "c.txt"[0];
  }

  lemma NestedTidy()
    ensures TidyListing(Some(Nested))
  {
    assert "main.py"[0] != "sub"[0];
  }

  lemma CachesTidy()
    ensures TidyListing(Some(Caches))
  {
    assert "main.py"[0] != "__pycache__"[0] && "main.py"[0] != ".git"[0] && "__pycache__"[0] != ".git"[0];
  }

  lemma VenvTidy()
    ensures TidyListing(Some(Venv))
  {
    assert "app.py"[0] != "venv"[0];
  }

  /** A path below `root` is `root` followed by its part below `root`. */
  lemma Below(root: Path, p: Path, rel: Path)
    ensures (root <= p && p[|root|..] == rel) <==> p == root + rel
  {
    if p == root + rel {
      assert p[..|root|] == root;
    }
  }

  /** A list without repeats that holds exactly `x` is `[x]`. */
  lemma {:induction false} OnlyElement<T>(s: seq<T>, x: T)
    requires Distinct(s) && forall p :: p in s <==> p == x
    ensures s == [x]
  {
    DistinctSize(s);
    assert (set p | p in s) == {x};
  }

  /** A list without repeats that holds exactly `x` and `y` has two items. */
  lemma {:induction false} TwoElements<T>(s: seq<T>, x: T, y: T)
    requires x != y && Distinct(s) && forall p :: p in s <==> p == x || p == y
    ensures |s| == 2
  {
    DistinctSize(s);
    assert (set p | p in s) == {x, y};
  }

  /** `test_find_simple`: two files, `a.py` and `b.py`. */
  method FindOnSimpleTest(root: Path) returns (files: seq<Path>)
    ensures |files| == 2 && root + ["a.py"] in files && root + ["b.py"] in files
  {
    files := FindPythonFiles(root, Some(Flat), None);
    FlatTidy();
    forall p ensures p in files <==> p == root + ["a.py"] || p == root + ["b.py"] {
      if root <= p {
        FlatFound(p[|root|..]);
      }
      Below(root, p, ["a.py"]);
      Below(root, p, ["b.py"]);
    }
    assert (root + ["a.py"])[|root|] != (root + ["b.py"])[|root|];
    TwoElements(files, root + ["a.py"], root + ["b.py"]);
  }

  /** `test_find_nested`: two files, one of them in the subdirectory. */
  method FindOnNestedTest(root: Path) returns (files: seq<Path>)
    ensures |files| == 2 && root + ["main.py"] in files && root + ["sub", "module.py"] in files
  {
    files := FindPythonFiles(root, Some(Nested), None);
    NestedTidy();
    forall p ensures p in files <==> p == root + ["main.py"] || p == root + ["sub", "module.py"] {
      if root <= p {
        NestedFound(p[|root|..]);
      }
      Below(root, p, ["main.py"]);
      Below(root, p, ["sub", "module.py"]);
    }
    assert |root + ["main.py"]| != |root + ["sub", "module.py"]|;
    TwoElements(files, root + ["main.py"], root + ["sub", "module.py"]);
  }

  /** `test_exclude_directories`: the one file reported is `main.py`. */
  method FindOnExcludeTest(root: Path) returns (files: seq<Path>)
    ensures files == [root + ["main.py"]]
  {
    files := FindPythonFiles(root, Some(Caches), None);
    CachesTidy();
    forall p ensures p in files <==> p == root + ["main.py"] {
      if root <= p {
        CachesFound(p[|root|..]);
      }
      Below(root, p, ["main.py"]);
    }
    OnlyElement(files, root + ["main.py"]);
  }

  /** `test_exclude_venv`: the one file reported is `app.py`. */
  method FindOnVenvTest(root: Path) returns (files: seq<Path>)
    ensures files == [root + ["app.py"]]
  {
    files := FindPythonFiles(root, Some(Venv), None);
    VenvTidy();
    forall p ensures p in files <==> p == root + ["app.py"] {
      if root <= p {
        VenvFound(p[|root|..]);
      }
      Below(root, p, ["app.py"]);
    }
    OnlyElement(files, root + ["app.py"]);
  }
}
