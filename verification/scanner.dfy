/** `find_python_files` of fastdeps/parser.py: a worklist walk of a
    directory tree that collects the `.py` files, skipping hidden and
    excluded directories, excluded files and symlinked directories. The
    filesystem is an abstract tree: each entry is what `os.scandir` reports
    for it. */
module Scanner {
  import opened Wrappers
  import opened Strings
  import opened Paths
  import opened Dicts

  /** One `os.DirEntry`. `is_file()` and `is_dir()` follow symbolic links,
      so a link to a directory is a `Dir` with `symlink` set. A directory
      is not `listable` when `os.scandir` raises `OSError` on it. */
  datatype Entry =
    | File(name: string, symlink: bool)
    | Dir(name: string, symlink: bool, listable: bool, children: seq<Entry>)
    | Other(name: string)
  {
    /** What `os.scandir` gives for a directory: `None` when it raises. */
    function Listing(): Option<seq<Entry>>
      requires Dir?
    {
      if listable then Some(children) else None
    }
  }

  /** The `exclude_dirs` default. */
  const DefaultExcluded: set<string> :=
    {".git", "__pycache__", ".venv", "venv", "env", "node_modules", ".tox", ".mypy_cache", ".pytest_cache"}

  function Excluded(exclude: Option<set<string>>): set<string> {
    if exclude.Some? then exclude.value else DefaultExcluded
  }

  /** No two entries of a listing share a name, as in any real directory. */
  predicate UniqueNames(es: seq<Entry>) {
    forall i, j :: 0 <= i < j < |es| ==> es[i].name != es[j].name
  }

  /** Every directory at or below `e` lists each name once. */
  predicate Tidy(e: Entry)
    decreases e
  {
    e.Dir? ==> UniqueNames(e.children) && forall i :: 0 <= i < |e.children| ==> Tidy(e.children[i])
  }

  /** A listing whose names, and the names in every directory below it,
      are unique. */
  predicate TidyListing(listing: Option<seq<Entry>>) {
    listing.Some? ==> UniqueNames(listing.value) && forall i :: 0 <= i < |listing.value| ==> Tidy(listing.value[i])
  }

  /** An entry the walk passes over: a hidden directory (the test uses
      `is_dir()`, so links to directories count), or any entry whose name is
      excluded. */
  predicate Skipped(e: Entry, excl: set<string>) {
    (StartsWith(e.name, ".") && e.Dir?) || e.name in excl
  }

  /** `rel` names, below a directory listed as `listing`, a `.py` file the
      walk must report: every step goes through an entry that is not
      skipped, every directory on the way is a real (not symlinked) and
      listable one, and the last step is a file whose name ends in `.py`. */
  ghost predicate Found(listing: Option<seq<Entry>>, rel: Path, excl: set<string>)
    decreases |rel|, 1
  {
    listing.Some? && exists i :: 0 <= i < |listing.value| && FoundVia(listing.value[i], rel, excl)
  }

  ghost predicate FoundVia(e: Entry, rel: Path, excl: set<string>)
    decreases |rel|, 0
  {
    && |rel| > 0 && e.name == rel[0] && !Skipped(e, excl)
    && (|rel| == 1 ==> e.File? && EndsWith(e.name, ".py"))
    && (|rel| > 1 ==> e.Dir? && !e.symlink && Found(e.Listing(), rel[1..], excl))
  }

  /** `rel` leads from `top` through real, not skipped directories to a
      directory listed as `listing`. */
  ghost predicate Reached(top: Option<seq<Entry>>, rel: Path, listing: Option<seq<Entry>>, excl: set<string>)
    decreases |rel|
  {
    if |rel| == 0 then listing == top
    else top.Some? && exists i :: 0 <= i < |top.value| && ReachedVia(top.value[i], rel, listing, excl)
  }

  ghost predicate ReachedVia(e: Entry, rel: Path, listing: Option<seq<Entry>>, excl: set<string>)
    requires |rel| > 0
    decreases |rel|, 0
  {
    && e.name == rel[0] && !Skipped(e, excl) && e.Dir? && !e.symlink
    && Reached(e.Listing(), rel[1..], listing, excl)
  }

  // ----- what every reported file is like -----

  /** A reported file's name ends in `.py`. */
  lemma {:induction false} FoundIsPython(listing: Option<seq<Entry>>, rel: Path, excl: set<string>)
    requires Found(listing, rel, excl)
    ensures |rel| > 0 && EndsWith(rel[|rel| - 1], ".py")
    decreases |rel|
  {
    var i :| 0 <= i < |listing.value| && FoundVia(listing.value[i], rel, excl);
    var e := listing.value[i];
    if |rel| > 1 {
      FoundIsPython(e.Listing(), rel[1..], excl);
      assert rel[1..][|rel[1..]| - 1] == rel[|rel| - 1];
    }
  }

  /** No segment of a reported path is excluded, and none of its
      directories is hidden. */
  lemma {:induction false} FoundAvoidsSkipped(listing: Option<seq<Entry>>, rel: Path, excl: set<string>)
    requires Found(listing, rel, excl)
    ensures forall k :: 0 <= k < |rel| ==> rel[k] !in excl
    ensures forall k :: 0 <= k < |rel| - 1 ==> !StartsWith(rel[k], ".")
    decreases |rel|
  {
    var i :| 0 <= i < |listing.value| && FoundVia(listing.value[i], rel, excl);
    var e := listing.value[i];
    if |rel| > 1 {
      FoundAvoidsSkipped(e.Listing(), rel[1..], excl);
      forall k | 1 <= k < |rel| ensures rel[k] !in excl {
        assert rel[k] == rel[1..][k - 1];
      }
      forall k | 1 <= k < |rel| - 1 ensures !StartsWith(rel[k], ".") {
        assert rel[k] == rel[1..][k - 1];
      }
    }
  }

  /** A `.py` file below a reached directory is found from the top. */
  lemma {:induction false} ReachedFound(top: Option<seq<Entry>>, dir: Path, listing: Option<seq<Entry>>, rest: Path, excl: set<string>)
    requires Reached(top, dir, listing, excl) && Found(listing, rest, excl)
    ensures Found(top, dir + rest, excl)
    decreases |dir|
  {
    if |dir| > 0 {
      var i :| 0 <= i < |top.value| && ReachedVia(top.value[i], dir, listing, excl);
      var e := top.value[i];
      ReachedFound(e.Listing(), dir[1..], listing, rest, excl);
      assert (dir + rest)[1..] == dir[1..] + rest;
      assert FoundVia(e, dir + rest, excl);
    } else {
      assert dir + rest == rest;
    }
  }

  /** A real, not skipped subdirectory of a reached directory is reached. */
  lemma {:induction false} ReachedChild(top: Option<seq<Entry>>, dir: Path, listing: Option<seq<Entry>>, j: nat, excl: set<string>)
    requires Reached(top, dir, listing, excl) && listing.Some? && j < |listing.value|
    requires listing.value[j].Dir? && !listing.value[j].symlink && !Skipped(listing.value[j], excl)
    ensures Reached(top, dir + [listing.value[j].name], listing.value[j].Listing(), excl)
    decreases |dir|
  {
    var e := listing.value[j];
    if |dir| > 0 {
      var i :| 0 <= i < |top.value| && ReachedVia(top.value[i], dir, listing, excl);
      var d := top.value[i];
      ReachedChild(d.Listing(), dir[1..], listing, j, excl);
      assert (dir + [e.name])[1..] == dir[1..] + [e.name];
      assert ReachedVia(d, dir + [e.name], e.Listing(), excl);
    } else {
      assert dir + [e.name] == [e.name];
      assert Reached(e.Listing(), [], e.Listing(), excl);
      assert ReachedVia(e, [e.name], e.Listing(), excl);
    }
  }

  // ----- the worklist -----

  /** An item of `dirs_to_process`: a directory below the root and its
      listing. */
  datatype Pending = Pending(dir: Path, listing: Option<seq<Entry>>)

  /** The number of entries in a tree, the measure the walk consumes. */
  function EntrySize(e: Entry): nat
  {
    if e.Dir? then 1 + ListSize(e.children) else 1
  }

  function ListSize(es: seq<Entry>): nat
  {
    if |es| == 0 then 0 else ListSize(es[..|es| - 1]) + EntrySize(es[|es| - 1])
  }

  function PendingSize(p: Pending): nat {
    1 + (if p.listing.Some? then ListSize(p.listing.value) else 0)
  }

  function WorkSize(work: seq<Pending>): nat {
    if |work| == 0 then 0 else WorkSize(work[..|work| - 1]) + PendingSize(work[|work| - 1])
  }

  /** `rel` is found below the pending directory `p`. */
  ghost predicate Covers(p: Pending, rel: Path, excl: set<string>) {
    p.dir <= rel && Found(p.listing, rel[|p.dir|..], excl)
  }

  /** Every file found from the top has been reported or lies below a
      pending directory. */
  ghost predicate Accounted(top: Option<seq<Entry>>, root: Path, excl: set<string>, files: seq<Path>, work: seq<Pending>) {
    forall rel :: Found(top, rel, excl) ==>
      root + rel in files || exists k :: 0 <= k < |work| && Covers(work[k], rel, excl)
  }

  /** Every reported file is found from the top. */
  ghost predicate Sound(top: Option<seq<Entry>>, root: Path, excl: set<string>, files: seq<Path>) {
    forall p :: p in files ==> root <= p && Found(top, p[|root|..], excl)
  }

  /** Every pending directory is reached from the top. */
  ghost predicate PendingReached(top: Option<seq<Entry>>, excl: set<string>, work: seq<Pending>) {
    forall k :: 0 <= k < |work| ==> Reached(top, work[k].dir, work[k].listing, excl)
  }

  /** Neither path lies at or below the other. */
  predicate Unrelated(a: Path, b: Path) {
    !(a <= b) && !(b <= a)
  }

  /** The reported files and the pending directories lie apart: no file is
      reported twice, every pending listing is tidy, no reported file lies
      below a pending directory, and no pending directory lies below
      another. */
  ghost predicate Apart(root: Path, files: seq<Path>, work: seq<Pending>) {
    && Distinct(files)
    && (forall k :: 0 <= k < |work| ==> TidyListing(work[k].listing))
    && (forall k, p :: 0 <= k < |work| && p in files ==> !(root + work[k].dir <= p))
    && (forall k, l :: 0 <= k < |work| && 0 <= l < |work| && k != l ==> !(work[k].dir <= work[l].dir))
  }

  /** `find_python_files(root_path, exclude_dirs)` over the tree whose root
      directory is listed as `top`: exactly the files `Found` describes. */
  method FindPythonFiles(root: Path, top: Option<seq<Entry>>, exclude: Option<set<string>>) returns (files: seq<Path>)
    ensures forall p :: p in files <==> root <= p && Found(top, p[|root|..], Excluded(exclude))
    ensures TidyListing(top) ==> Distinct(files)
  {
    var excl := Excluded(exclude);
    ghost var tidy := TidyListing(top);
    files := [];
    var work := [Pending([], top)];
    if tidy {
      ApartStart(root, top);
    }
    assert Reached(top, [], top, excl);
    assert forall rel :: Found(top, rel, excl) ==> Covers(work[0], rel, excl);
    while work != []
      invariant Sound(top, root, excl, files)
      invariant PendingReached(top, excl, work)
      invariant Accounted(top, root, excl, files, work)
      invariant tidy ==> Apart(root, files, work)
      decreases WorkSize(work)
    {
      files, work := Step(root, top, excl, files, work, tidy);
    }
    forall p | root <= p && Found(top, p[|root|..], excl) ensures p in files {
      assert root + p[|root|..] == p;
    }
  }

  /** One pass of the `while` loop: the last pending directory is popped,
      and dropped when it cannot be listed or scanned otherwise. */
  method Step(root: Path, top: Option<seq<Entry>>, excl: set<string>, files: seq<Path>, work: seq<Pending>,
              ghost tidy: bool) returns (files': seq<Path>, work': seq<Pending>)
    requires work != []
    requires Sound(top, root, excl, files)
    requires PendingReached(top, excl, work)
    requires Accounted(top, root, excl, files, work)
    requires tidy ==> Apart(root, files, work)
    ensures Sound(top, root, excl, files')
    ensures PendingReached(top, excl, work')
    ensures Accounted(top, root, excl, files', work')
    ensures tidy ==> Apart(root, files', work')
    ensures WorkSize(work') < WorkSize(work)
  {
    var current := work[|work| - 1];
    var rest := work[..|work| - 1];
    assert work == rest + [current];
    if current.listing.None? {
      NothingBelowUnlisted(top, root, excl, files, rest, current);
      if tidy {
        ApartDrop(root, files, rest, current);
      }
      return files, rest;
    }
    files', work' := ScanDir(root, top, excl, files, rest, current, tidy);
  }

  /** An unlistable directory covers nothing, so dropping it keeps every
      found file accounted for. */
  lemma NothingBelowUnlisted(top: Option<seq<Entry>>, root: Path, excl: set<string>, files: seq<Path>,
                             rest: seq<Pending>, current: Pending)
    requires current.listing.None?
    requires Accounted(top, root, excl, files, rest + [current])
    ensures Accounted(top, root, excl, files, rest)
  {
    forall rel | Found(top, rel, excl) && root + rel !in files
      ensures exists k :: 0 <= k < |rest| && Covers(rest[k], rel, excl)
    {
      var k :| 0 <= k < |rest| + 1 && Covers((rest + [current])[k], rel, excl);
      assert k < |rest|;
      assert (rest + [current])[k] == rest[k];
    }
  }

  /** The body of the `while` loop for a listable directory: each entry in
      turn is passed over, reported or queued. */
  method ScanDir(root: Path, top: Option<seq<Entry>>, excl: set<string>, files: seq<Path>,
                 rest: seq<Pending>, current: Pending, ghost tidy: bool) returns (files': seq<Path>, work': seq<Pending>)
    requires current.listing.Some?
    requires Sound(top, root, excl, files)
    requires PendingReached(top, excl, rest + [current])
    requires Accounted(top, root, excl, files, rest + [current])
    requires tidy ==> Apart(root, files, rest + [current])
    ensures Sound(top, root, excl, files')
    ensures PendingReached(top, excl, work')
    ensures Accounted(top, root, excl, files', work')
    ensures tidy ==> Apart(root, files', work')
    ensures WorkSize(work') < WorkSize(rest + [current])
  {
    var entries := current.listing.value;
    assert (rest + [current])[..|rest|] == rest;
    assert Reached(top, current.dir, current.listing, excl) by {
      assert (rest + [current])[|rest|] == current;
    }
    files' := files;
    work' := rest;
    OpenDir(top, root, excl, files, rest, current);
    if tidy {
      ApartOpen(root, files, rest, current);
    }
    for j := 0 to |entries|
      invariant Sound(top, root, excl, files')
      invariant PendingReached(top, excl, work')
      invariant AccountedFrom(top, root, excl, files', work', current, j)
      invariant tidy ==> ApartFrom(root, files', work', current, j)
      invariant WorkSize(work') <= WorkSize(rest) + ListSize(entries[..j])
    {
      ListSizeStep(entries, j);
      files', work' := ScanEntry(root, top, excl, files', work', current, j, tidy);
    }
    assert entries[..|entries|] == entries;
    AccountedAll(top, root, excl, files', work', current);
  }

  /** One pass of `for entry in entries`: a skipped entry is passed over, a
      `.py` file is reported, a real directory is queued. */
  method ScanEntry(root: Path, top: Option<seq<Entry>>, excl: set<string>, files: seq<Path>,
                   work: seq<Pending>, current: Pending, j: nat, ghost tidy: bool) returns (files': seq<Path>, work': seq<Pending>)
    requires current.listing.Some? && j < |current.listing.value|
    requires Reached(top, current.dir, current.listing, excl)
    requires Sound(top, root, excl, files)
    requires PendingReached(top, excl, work)
    requires AccountedFrom(top, root, excl, files, work, current, j)
    requires tidy ==> ApartFrom(root, files, work, current, j)
    ensures Sound(top, root, excl, files')
    ensures PendingReached(top, excl, work')
    ensures AccountedFrom(top, root, excl, files', work', current, j + 1)
    ensures tidy ==> ApartFrom(root, files', work', current, j + 1)
    ensures WorkSize(work') <= WorkSize(work) + EntrySize(current.listing.value[j])
  {
    var e := current.listing.value[j];
    files', work' := files, work;
    if Skipped(e, excl) {
    } else if e.File? && EndsWith(e.name, ".py") {
      ReportFile(top, root, excl, files, current, j);
      files' := files + [root + current.dir + [e.name]];
      if tidy {
        ApartFile(root, files, work, current, j);
      }
    } else if e.Dir? && !e.symlink {
      ReachedChild(top, current.dir, current.listing, j, excl);
      work' := work + [Pending(current.dir + [e.name], e.Listing())];
      assert work'[..|work'| - 1] == work;
      if tidy {
        ApartDir(root, files, work, current, j);
      }
    }
    EntryDone(top, root, excl, files, files', work, work', current, j);
  }

  lemma ListSizeStep(es: seq<Entry>, j: nat)
    requires j < |es|
    ensures ListSize(es[..j + 1]) == ListSize(es[..j]) + EntrySize(es[j])
  {
    assert es[..j + 1][..j] == es[..j];
  }

  /** Found files below `current` through entries from `j` on are still to
      be handled; all others are reported or covered by `work`. */
  ghost predicate AccountedFrom(top: Option<seq<Entry>>, root: Path, excl: set<string>, files: seq<Path>,
                                work: seq<Pending>, current: Pending, j: nat)
    requires current.listing.Some?
  {
    forall rel :: Found(top, rel, excl) ==>
      || root + rel in files
      || (exists k :: 0 <= k < |work| && Covers(work[k], rel, excl))
      || (current.dir <= rel && exists i :: (j <= i < |current.listing.value| &&
            FoundVia(current.listing.value[i], rel[|current.dir|..], excl)))
  }

  lemma OpenDir(top: Option<seq<Entry>>, root: Path, excl: set<string>, files: seq<Path>,
                rest: seq<Pending>, current: Pending)
    requires current.listing.Some?
    requires Accounted(top, root, excl, files, rest + [current])
    ensures AccountedFrom(top, root, excl, files, rest, current, 0)
  {
    forall rel | Found(top, rel, excl) && root + rel !in files && !(exists k :: 0 <= k < |rest| && Covers(rest[k], rel, excl))
      ensures current.dir <= rel && exists i :: (0 <= i < |current.listing.value| &&
            FoundVia(current.listing.value[i], rel[|current.dir|..], excl))
    {
      var k :| 0 <= k < |rest| + 1 && Covers((rest + [current])[k], rel, excl);
      assert Covers(current, rel, excl);
    }
  }

  lemma AccountedAll(top: Option<seq<Entry>>, root: Path, excl: set<string>, files: seq<Path>,
                     work: seq<Pending>, current: Pending)
    requires current.listing.Some?
    requires AccountedFrom(top, root, excl, files, work, current, |current.listing.value|)
    ensures Accounted(top, root, excl, files, work)
  {
  }

  /** A `.py` file entry of a reached directory is a found file. */
  lemma ReportFile(top: Option<seq<Entry>>, root: Path, excl: set<string>, files: seq<Path>, current: Pending, j: nat)
    requires current.listing.Some? && j < |current.listing.value|
    requires Reached(top, current.dir, current.listing, excl)
    requires Sound(top, root, excl, files)
    requires !Skipped(current.listing.value[j], excl)
    requires current.listing.value[j].File? && EndsWith(current.listing.value[j].name, ".py")
    ensures Sound(top, root, excl, files + [root + current.dir + [current.listing.value[j].name]])
  {
    var e := current.listing.value[j];
    var rel := current.dir + [e.name];
    assert FoundVia(e, [e.name], excl);
    assert Found(current.listing, [e.name], excl);
    ReachedFound(top, current.dir, current.listing, [e.name], excl);
    assert (root + rel)[|root|..] == rel;
    assert root + current.dir + [e.name] == root + rel;
  }

  /** After entry `j`, the files found through it are reported or covered. */
  lemma EntryDone(top: Option<seq<Entry>>, root: Path, excl: set<string>, files: seq<Path>, files': seq<Path>,
                  work: seq<Pending>, work': seq<Pending>, current: Pending, j: nat)
    requires current.listing.Some? && j < |current.listing.value|
    requires AccountedFrom(top, root, excl, files, work, current, j)
    requires forall p :: p in files ==> p in files'
    requires |work| <= |work'| && work'[..|work|] == work
    requires var e := current.listing.value[j];
      && (!Skipped(e, excl) && e.File? && EndsWith(e.name, ".py") ==> root + current.dir + [e.name] in files')
      && (!Skipped(e, excl) && e.Dir? && !e.symlink ==>
            |work'| > |work| && work'[|work'| - 1] == Pending(current.dir + [e.name], e.Listing()))
    ensures AccountedFrom(top, root, excl, files', work', current, j + 1)
  {
    var dir := current.dir;
    var entries := current.listing.value;
    forall rel | Found(top, rel, excl)
      ensures || root + rel in files'
              || (exists k :: 0 <= k < |work'| && Covers(work'[k], rel, excl))
              || (dir <= rel && exists i :: j + 1 <= i < |entries| && FoundVia(entries[i], rel[|dir|..], excl))
    {
      if exists k :: 0 <= k < |work| && Covers(work[k], rel, excl) {
        var k :| 0 <= k < |work| && Covers(work[k], rel, excl);
        assert work'[k] == work[k];
      } else if root + rel !in files && dir <= rel && FoundVia(entries[j], rel[|dir|..], excl) {
        var e := entries[j];
        var tail := rel[|dir|..];
        assert rel == dir + tail;
        if |tail| == 1 {
          assert rel == dir + [e.name];
          assert root + dir + [e.name] == root + rel;
        } else {
          var child := Pending(dir + [e.name], e.Listing());
          assert child.dir <= rel;
          assert rel[|child.dir|..] == tail[1..];
          assert Covers(work'[|work'| - 1], rel, excl);
        }
      }
    }
  }

  // ----- no file is reported twice -----

  /** While `current` is being scanned: the reported files and pending
      directories lie apart, and the entries from `j` on lie apart from
      both. */
  ghost predicate ApartFrom(root: Path, files: seq<Path>, work: seq<Pending>, current: Pending, j: nat)
    requires current.listing.Some?
  {
    && Apart(root, files, work)
    && TidyListing(current.listing)
    && (forall i, p :: j <= i < |current.listing.value| && p in files ==>
          !(root + current.dir + [current.listing.value[i].name] <= p))
    && (forall i, k :: j <= i < |current.listing.value| && 0 <= k < |work| ==>
          Unrelated(work[k].dir, current.dir + [current.listing.value[i].name]))
  }

  /** Prefixes are unaffected by a common front. */
  lemma RootPrefix(root: Path, a: Path, b: Path)
    ensures root + a <= root + b <==> a <= b
  {
    if root + a <= root + b {
      assert a == (root + a)[|root|..];
      assert b[..|a|] == (root + b)[..|root + a|][|root|..];
    }
    if a <= b {
      assert (root + b)[..|root + a|] == root + b[..|a|];
    }
  }

  /** A path unrelated to a directory is unrelated to its children. */
  lemma ChildUnrelated(a: Path, c: Path, x: string)
    requires Unrelated(a, c)
    ensures Unrelated(a, c + [x])
  {
  }

  /** Two entries of one directory with different names are unrelated. */
  lemma SiblingsUnrelated(c: Path, x: string, y: string)
    requires x != y
    ensures Unrelated(c + [x], c + [y])
  {
    assert (c + [x])[|c|] == x && (c + [y])[|c|] == y;
  }

  /** What does not lie below a directory does not lie below its children. */
  lemma BelowChild(d: Path, x: string, p: Path)
    requires !(d <= p)
    ensures !(d + [x] <= p)
  {
  }

  /** The walk starts apart. */
  lemma ApartStart(root: Path, top: Option<seq<Entry>>)
    requires TidyListing(top)
    ensures Apart(root, [], [Pending([], top)])
  {
  }

  /** Dropping the last pending directory keeps the rest apart. */
  lemma ApartDrop(root: Path, files: seq<Path>, rest: seq<Pending>, current: Pending)
    requires Apart(root, files, rest + [current])
    ensures Apart(root, files, rest)
  {
    forall k | 0 <= k < |rest| ensures (rest + [current])[k] == rest[k] {}
  }

  /** Opening the last pending directory: its entries lie apart from the
      reported files and from the other pending directories. */
  lemma ApartOpen(root: Path, files: seq<Path>, rest: seq<Pending>, current: Pending)
    requires current.listing.Some?
    requires Apart(root, files, rest + [current])
    ensures ApartFrom(root, files, rest, current, 0)
  {
    var work := rest + [current];
    ApartDrop(root, files, rest, current);
    assert work[|rest|] == current;
    var names := current.listing.value;
    forall i, p | 0 <= i < |names| && p in files
      ensures !(root + current.dir + [names[i].name] <= p)
    {
      BelowChild(root + current.dir, names[i].name, p);
    }
    forall i, k | 0 <= i < |names| && 0 <= k < |rest|
      ensures Unrelated(rest[k].dir, current.dir + [names[i].name])
    {
      assert work[k] == rest[k];
      ChildUnrelated(rest[k].dir, current.dir, names[i].name);
    }
  }

  /** Reporting the `.py` file at entry `j` keeps things apart. */
  lemma ApartFile(root: Path, files: seq<Path>, work: seq<Pending>, current: Pending, j: nat)
    requires current.listing.Some? && j < |current.listing.value|
    requires ApartFrom(root, files, work, current, j)
    ensures ApartFrom(root, files + [root + current.dir + [current.listing.value[j].name]], work, current, j + 1)
  {
    var names := current.listing.value;
    var f := root + current.dir + [names[j].name];
    var files' := files + [f];
    assert f !in files;
    assert Distinct(files') by {
      forall a, b | 0 <= a < b < |files'| ensures files'[a] != files'[b] {
        if b == |files| {
          assert files'[a] in files;
        } else {
          assert files'[a] == files[a] && files'[b] == files[b];
        }
      }
    }
    assert f == root + (current.dir + [names[j].name]);
    forall k | 0 <= k < |work| ensures !(root + work[k].dir <= f) {
      RootPrefix(root, work[k].dir, current.dir + [names[j].name]);
    }
    forall i | j + 1 <= i < |names| ensures !(root + current.dir + [names[i].name] <= f) {
      SiblingsUnrelated(current.dir, names[i].name, names[j].name);
      RootPrefix(root, current.dir + [names[i].name], current.dir + [names[j].name]);
      assert root + current.dir + [names[i].name] == root + (current.dir + [names[i].name]);
    }
  }

  /** Queueing the directory at entry `j` keeps things apart. */
  lemma ApartDir(root: Path, files: seq<Path>, work: seq<Pending>, current: Pending, j: nat)
    requires current.listing.Some? && j < |current.listing.value| && current.listing.value[j].Dir?
    requires ApartFrom(root, files, work, current, j)
    ensures ApartFrom(root, files, work + [Pending(current.dir + [current.listing.value[j].name],
                                                   current.listing.value[j].Listing())], current, j + 1)
  {
    var names := current.listing.value;
    var e := names[j];
    var c := current.dir + [e.name];
    var work' := work + [Pending(c, e.Listing())];
    assert Tidy(e);
    assert TidyListing(e.Listing());
    forall k | 0 <= k < |work'| ensures TidyListing(work'[k].listing) {
      if k < |work| {
        assert work'[k] == work[k];
      }
    }
    forall k, p | 0 <= k < |work'| && p in files ensures !(root + work'[k].dir <= p) {
      if k < |work| {
        assert work'[k] == work[k];
      } else {
        assert root + current.dir + [e.name] == root + c;
      }
    }
    forall k, l | 0 <= k < |work'| && 0 <= l < |work'| && k != l ensures !(work'[k].dir <= work'[l].dir) {
      if k < |work| && l < |work| {
        assert work'[k] == work[k] && work'[l] == work[l];
      } else if k < |work| {
        assert work'[k] == work[k];
      } else {
        assert work'[l] == work[l];
      }
    }
    forall i, k | j + 1 <= i < |names| && 0 <= k < |work'|
      ensures Unrelated(work'[k].dir, current.dir + [names[i].name])
    {
      if k < |work| {
        assert work'[k] == work[k];
      } else {
        SiblingsUnrelated(current.dir, e.name, names[i].name);
      }
    }
  }
}
