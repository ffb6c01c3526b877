/** Graph statistics (`get_stats` of fastdeps/graph.py): the totals, the
    number of cycles, and the five most imported and most importing files. */
module Stats {
  import opened Paths
  import opened Dicts
  import opened Graphs
  import opened Reach
  import opened Cycles
  import opened Tarjan

  // ----- totals -----

  /** `sum(len(f(p)) for p in keys)`. */
  function SumSizes<B>(keys: seq<Path>, f: Path -> set<B>): nat
    decreases |keys|
  {
    if |keys| == 0 then 0 else |f(keys[0])| + SumSizes(keys[1..], f)
  }

  /** The pairs `(p, b)` with `p` listed and `b` in `f(p)`. */
  ghost function Pairs<B>(keys: seq<Path>, f: Path -> set<B>): set<(Path, B)> {
    set p, b | p in keys && b in f(p) :: (p, b)
  }

  /** Tagging the elements of a set with `k` keeps its size. */
  lemma {:induction false} TagSize<A, B>(k: A, s: set<B>)
    ensures |set b | b in s :: (k, b)| == |s|
    decreases s
  {
    if s != {} {
      var x :| x in s;
      TagSize(k, s - {x});
      assert (set b | b in s :: (k, b)) == (set b | b in s - {x} :: (k, b)) + {(k, x)};
    }
  }

  /** Over distinct keys, the sum of the sizes counts the pairs. */
  lemma {:induction false} SumCountsPairs<B>(keys: seq<Path>, f: Path -> set<B>)
    requires Distinct(keys)
    ensures SumSizes(keys, f) == |Pairs(keys, f)|
    decreases |keys|
  {
    if |keys| > 0 {
      var k := keys[0];
      var rest := keys[1..];
      assert Distinct(rest);
      SumCountsPairs(rest, f);
      TagSize(k, f(k));
      var tagged := set b | b in f(k) :: (k, b);
      assert Pairs(keys, f) == Pairs(rest, f) + tagged by {
        assert forall p :: p in keys <==> p == k || p in rest;
      }
      assert Pairs(rest, f) !! tagged by {
        assert k !in rest;
      }
    }
  }

  /** The external imports of `p`; none for a path that is not a node. */
  function Externals(g: DependencyGraph, p: Path): set<string> {
    if p in g.nodes.entries then g.nodes.entries[p].externalImports else {}
  }

  /** Every import edge of the graph. */
  ghost function Edges(g: DependencyGraph): set<(Path, Path)> {
    set p, q | p in g.nodes.entries && q in g.nodes.entries[p].imports :: (p, q)
  }

  /** Every (file, external module) pair of the graph. */
  ghost function ExternalPairs(g: DependencyGraph): set<(Path, string)> {
    set p, n | p in g.nodes.entries && n in g.nodes.entries[p].externalImports :: (p, n)
  }

  /** `total_dependencies`: the sum over the nodes of their import counts. */
  function TotalDependencies(g: DependencyGraph): nat {
    SumSizes(g.nodes.keys, p => Succ(g, p))
  }

  /** `total_external`: the sum over the nodes of their external counts. */
  function TotalExternal(g: DependencyGraph): nat {
    SumSizes(g.nodes.keys, p => Externals(g, p))
  }

  /** `total_dependencies` counts the import edges. */
  lemma DependenciesCountEdges(g: DependencyGraph)
    requires g.nodes.Valid()
    ensures TotalDependencies(g) == |Edges(g)|
  {
    var f := p => Succ(g, p);
    SumCountsPairs(g.nodes.keys, f);
    assert Pairs(g.nodes.keys, f) == Edges(g) by {
      assert forall p :: p in g.nodes.keys <==> p in g.nodes.entries;
    }
  }

  /** `total_external` counts the (file, external module) pairs. */
  lemma ExternalCountsPairs(g: DependencyGraph)
    requires g.nodes.Valid()
    ensures TotalExternal(g) == |ExternalPairs(g)|
  {
    var f := p => Externals(g, p);
    SumCountsPairs(g.nodes.keys, f);
    assert Pairs(g.nodes.keys, f) == ExternalPairs(g) by {
      assert forall p :: p in g.nodes.keys <==> p in g.nodes.entries;
    }
  }

  // ----- import counts -----

  /** The nodes that import `q`. */
  ghost function Importers(g: DependencyGraph, q: Path): set<Path> {
    set p | p in g.nodes.entries && q in g.nodes.entries[p].imports
  }

  /** The listed paths that import `q`. */
  ghost function ImportersIn(g: DependencyGraph, keys: seq<Path>, q: Path): set<Path> {
    set p | p in keys && q in Succ(g, p)
  }

  /** The paths some listed path imports. */
  ghost function ImportedIn(g: DependencyGraph, keys: seq<Path>): set<Path> {
    set p, q | p in keys && q in Succ(g, p) :: q
  }

  /** The paths some node imports. */
  ghost function Imported(g: DependencyGraph): set<Path> {
    set p, q | p in g.nodes.entries && q in g.nodes.entries[p].imports :: q
  }

  /** In a well-formed graph a file's importers are its `imported_by` set. */
  lemma ImportersMirror(g: DependencyGraph, q: Path)
    requires Valid(g) && q in g.nodes.entries
    ensures Importers(g, q) == g.nodes.entries[q].importedBy
  {
    forall p ensures p in Importers(g, q) <==> p in g.nodes.entries[q].importedBy {
      assert HasEdge(g, p, q) <==> HasBackEdge(g, q, p);
    }
  }

  /** The count of `q` in `counts`, zero when absent (`defaultdict(int)`). */
  function CountOf(counts: Dict<Path, nat>, q: Path): nat {
    if q in counts.entries then counts.entries[q] else 0
  }

  /** `counts[q] += 1`. */
  function Increment(counts: Dict<Path, nat>, q: Path): (r: Dict<Path, nat>)
    requires counts.Valid()
    ensures r.Valid()
    ensures forall y :: y in r.entries <==> y in counts.entries || y == q
    ensures forall y :: CountOf(r, y) == CountOf(counts, y) + (if y == q then 1 else 0)
  {
    counts.Put(q, CountOf(counts, q) + 1)
  }

  /** The inner loop of the counting (`for imp in node.imports`), as a
      recursion over the imports not yet counted: each gains one. */
  method Bump(counts: Dict<Path, nat>, todo: set<Path>) returns (r: Dict<Path, nat>)
    requires counts.Valid()
    ensures r.Valid()
    ensures forall y :: y in r.entries <==> y in counts.entries || y in todo
    ensures forall y :: CountOf(r, y) == CountOf(counts, y) + (if y in todo then 1 else 0)
    decreases |todo|
  {
    if todo == {} {
      return counts;
    }
    var q :| q in todo;
    r := Bump(Increment(counts, q), todo - {q});
  }

  /** One more node counted. */
  lemma CountStep(g: DependencyGraph, keys: seq<Path>, i: nat, q: Path)
    requires Distinct(keys) && i < |keys|
    ensures |ImportersIn(g, keys[..i + 1], q)| == |ImportersIn(g, keys[..i], q)| + (if q in Succ(g, keys[i]) then 1 else 0)
  {
    assert forall p :: p in keys[..i + 1] <==> p in keys[..i] || p == keys[i];
    assert keys[i] !in keys[..i];
    if q in Succ(g, keys[i]) {
      assert ImportersIn(g, keys[..i + 1], q) == ImportersIn(g, keys[..i], q) + {keys[i]};
    } else {
      assert ImportersIn(g, keys[..i + 1], q) == ImportersIn(g, keys[..i], q);
    }
  }

  /** The counts after the first `i` nodes: every path imported by one of
      them, with the number of them importing it. */
  ghost predicate CountedUpTo(g: DependencyGraph, keys: seq<Path>, i: nat, counts: Dict<Path, nat>)
    requires i <= |keys|
  {
    counts.Valid()
    && (forall q :: q in counts.entries <==> q in ImportedIn(g, keys[..i]))
    && (forall q :: CountOf(counts, q) == |ImportersIn(g, keys[..i], q)|)
  }

  /** One pass of the outer loop of `import_counts`: the imports of node
      `keys[i]` are counted. */
  method CountNode(g: DependencyGraph, keys: seq<Path>, i: nat, counts: Dict<Path, nat>) returns (r: Dict<Path, nat>)
    requires Distinct(keys) && i < |keys|
    requires CountedUpTo(g, keys, i, counts)
    ensures CountedUpTo(g, keys, i + 1, r)
  {
    var node := keys[i];
    var imports := if node in g.nodes.entries then g.nodes.entries[node].imports else {};
    assert imports == Succ(g, node);
    r := Bump(counts, imports);
    assert forall q :: q in ImportedIn(g, keys[..i + 1]) <==> q in ImportedIn(g, keys[..i]) || q in imports by {
      assert forall p :: p in keys[..i + 1] <==> p in keys[..i] || p == keys[i];
    }
    forall q ensures CountOf(r, q) == |ImportersIn(g, keys[..i + 1], q)| {
      CountStep(g, keys, i, q);
    }
  }

  /** Once every node is counted, the listed importers are all importers. */
  lemma CountedAll(g: DependencyGraph, counts: Dict<Path, nat>)
    requires g.nodes.Valid()
    requires CountedUpTo(g, g.nodes.keys, |g.nodes.keys|, counts)
    ensures forall q :: q in counts.entries <==> q in Imported(g)
    ensures forall q :: CountOf(counts, q) == |Importers(g, q)|
  {
    var keys := g.nodes.keys;
    assert keys[..|keys|] == keys;
    assert forall p :: p in keys <==> p in g.nodes.entries;
    forall q ensures CountOf(counts, q) == |Importers(g, q)| {
      assert ImportersIn(g, keys, q) == Importers(g, q);
    }
    forall q ensures q in ImportedIn(g, keys) <==> q in Imported(g) {
      if q in ImportedIn(g, keys) {
        var p :| p in keys && q in Succ(g, p);
        assert q in g.nodes.entries[p].imports;
      }
      if q in Imported(g) {
        var p :| p in g.nodes.entries && q in g.nodes.entries[p].imports;
        assert p in keys && q in Succ(g, p);
      }
    }
  }

  /** `import_counts`: for every imported path, how many nodes import it;
      paths appear in the order they are first met. */
  method ImportCounts(g: DependencyGraph) returns (counts: Dict<Path, nat>)
    requires g.nodes.Valid()
    ensures counts.Valid()
    ensures forall q :: q in counts.entries <==> q in Imported(g)
    ensures forall q :: CountOf(counts, q) == |Importers(g, q)|
  {
    var keys := g.nodes.keys;
    counts := Empty();
    assert keys[..0] == [];
    for i := 0 to |keys|
      invariant CountedUpTo(g, keys, i, counts)
    {
      counts := CountNode(g, keys, i, counts);
    }
    CountedAll(g, counts);
  }

  // ----- ranking -----

  /** A (path, count) pair of `most_imported` and `most_imports`. */
  type Ranked = (Path, nat)

  predicate NonIncreasing(s: seq<Ranked>) {
    forall i, j :: 0 <= i < j < |s| ==> s[i].1 >= s[j].1
  }

  /** The entries with count `c`, in order. */
  function WithCount(s: seq<Ranked>, c: nat): (r: seq<Ranked>)
    ensures forall y :: y in r <==> y in s && y.1 == c
    decreases |s|
  {
    if |s| == 0 then []
    else (if s[0].1 == c then [s[0]] else []) + WithCount(s[1..], c)
  }

  lemma {:induction false} WithCountAppend(s: seq<Ranked>, x: Ranked, c: nat)
    ensures WithCount(s + [x], c) == WithCount(s, c) + (if x.1 == c then [x] else [])
    decreases |s|
  {
    if |s| > 0 {
      assert (s + [x])[1..] == s[1..] + [x];
      WithCountAppend(s[1..], x, c);
    } else {
      assert s + [x] == [x];
    }
  }

  lemma {:induction false} WithCountSplit(s: seq<Ranked>, n: nat, c: nat)
    requires n <= |s|
    ensures WithCount(s, c) == WithCount(s[..n], c) + WithCount(s[n..], c)
    decreases n
  {
    if n > 0 {
      WithCountSplit(s[1..], n - 1, c);
      assert s[1..][..n - 1] == s[..n][1..];
      assert s[1..][n - 1..] == s[n..];
    }
  }

  /** Puts `x` after every entry whose count is at least its own. */
  function Insert(s: seq<Ranked>, x: Ranked): (r: seq<Ranked>)
    requires NonIncreasing(s)
    ensures |r| == |s| + 1
    ensures forall y :: y in r <==> y in s || y == x
    ensures NonIncreasing(r)
    decreases |s|
  {
    if |s| == 0 then [x]
    else if s[0].1 >= x.1 then
      var tail := Insert(s[1..], x);
      assert s == [s[0]] + s[1..];
      assert forall k :: 0 <= k < |tail| ==> tail[k].1 <= s[0].1 by {
        forall k | 0 <= k < |tail| ensures tail[k].1 <= s[0].1 {
          assert tail[k] in tail;
        }
      }
      [s[0]] + tail
    else [x] + s
  }

  /** No entry with count `c`: the filter is empty. */
  lemma {:induction false} WithCountNone(s: seq<Ranked>, c: nat)
    requires forall y :: y in s ==> y.1 != c
    ensures WithCount(s, c) == []
    decreases |s|
  {
    if |s| > 0 {
      assert s[0] in s;
      assert forall y :: y in s[1..] ==> y in s;
      WithCountNone(s[1..], c);
    }
  }

  /** Entries with equal counts keep their order under insertion: `x` comes
      after every entry of its own count. */
  lemma {:induction false} InsertStable(s: seq<Ranked>, x: Ranked, c: nat)
    requires NonIncreasing(s)
    ensures WithCount(Insert(s, x), c) == WithCount(s, c) + (if x.1 == c then [x] else [])
    decreases |s|
  {
    if |s| == 0 {
    } else if s[0].1 >= x.1 {
      assert NonIncreasing(s[1..]);
      InsertStable(s[1..], x, c);
      InsertBehind(s, x, c);
    } else {
      InsertFront(s, x, c);
    }
  }

  /** `x` goes after the head of `s`: the head keeps its place in front of
      what the insertion into the rest gives. */
  lemma InsertBehind(s: seq<Ranked>, x: Ranked, c: nat)
    requires NonIncreasing(s) && |s| > 0 && s[0].1 >= x.1
    requires WithCount(Insert(s[1..], x), c) == WithCount(s[1..], c) + (if x.1 == c then [x] else [])
    ensures WithCount(Insert(s, x), c) == WithCount(s, c) + (if x.1 == c then [x] else [])
  {
    var t := Insert(s[1..], x);
    var head := if s[0].1 == c then [s[0]] else [];
    var rest := WithCount(s[1..], c);
    var added := if x.1 == c then [x] else [];
    calc {
      WithCount(Insert(s, x), c);
      WithCount([s[0]] + t, c);
      { WithCountCons(s[0], t, c); }
      head + (rest + added);
      { Associative(head, rest, added); }
      (head + rest) + added;
      { WithCountCons(s[0], s[1..], c); assert s == [s[0]] + s[1..]; }
      WithCount(s, c) + added;
    }
  }

  lemma Associative<T>(a: seq<T>, b: seq<T>, c: seq<T>)
    ensures a + (b + c) == (a + b) + c
  {
  }

  lemma WithCountCons(h: Ranked, t: seq<Ranked>, c: nat)
    ensures WithCount([h] + t, c) == (if h.1 == c then [h] else []) + WithCount(t, c)
  {
    assert ([h] + t)[1..] == t;
  }

  /** `x` counts more than every entry of `s`, so nothing of `s` shares its
      count. */
  lemma InsertFront(s: seq<Ranked>, x: Ranked, c: nat)
    requires NonIncreasing(s) && |s| > 0 && s[0].1 < x.1
    ensures WithCount([x] + s, c) == WithCount(s, c) + (if x.1 == c then [x] else [])
  {
    assert ([x] + s)[1..] == s;
    if x.1 == c {
      forall y | y in s ensures y.1 != c {
        var k :| 0 <= k < |s| && s[k] == y;
      }
      WithCountNone(s, c);
    }
  }

  /** `sorted(items, key=count, reverse=True)`: a stable sort, so entries with
      equal counts keep their relative order. */
  function SortByCount(s: seq<Ranked>): (r: seq<Ranked>)
    ensures |r| == |s|
    ensures NonIncreasing(r)
    ensures forall c :: WithCount(r, c) == WithCount(s, c)
    decreases |s|
  {
    if |s| == 0 then []
    else
      var front := s[..|s| - 1];
      var last := s[|s| - 1];
      var sorted := SortByCount(front);
      assert s == front + [last];
      assert forall c :: WithCount(Insert(sorted, last), c) == WithCount(s, c) by {
        forall c ensures WithCount(Insert(sorted, last), c) == WithCount(s, c) {
          InsertStable(sorted, last, c);
          WithCountAppend(front, last, c);
        }
      }
      Insert(sorted, last)
  }

  /** In a non-increasing sequence, nothing after the first `n` entries
      counts more than the `n`-th. */
  lemma TailBelow(sorted: seq<Ranked>, n: nat, c: nat)
    requires NonIncreasing(sorted) && 0 < n <= |sorted| && c > sorted[n - 1].1
    ensures WithCount(sorted[n..], c) == []
  {
    forall y | y in sorted[n..] ensures y.1 != c {
      var k :| n <= k < |sorted| && sorted[k] == y;
    }
    WithCountNone(sorted[n..], c);
  }

  /** The first `n` entries of a sorted sequence: per count, a prefix of the
      entries with that count, and all of them for counts above the last
      one kept. */
  lemma TopFacts(items: seq<Ranked>, n: nat)
    requires n <= |items|
    ensures NonIncreasing(SortByCount(items)[..n])
    ensures forall y :: y in SortByCount(items)[..n] ==> y in items
    ensures forall c :: WithCount(SortByCount(items)[..n], c) <= WithCount(items, c)
    ensures n > 0 ==> forall c :: c > SortByCount(items)[n - 1].1 ==> WithCount(SortByCount(items)[..n], c) == WithCount(items, c)
  {
    var sorted := SortByCount(items);
    var top := sorted[..n];
    forall c ensures WithCount(sorted, c) == WithCount(top, c) + WithCount(sorted[n..], c) {
      WithCountSplit(sorted, n, c);
    }
    if n > 0 {
      forall c | c > sorted[n - 1].1 ensures WithCount(sorted[n..], c) == [] {
        TailBelow(sorted, n, c);
      }
    }
    forall y | y in top ensures y in items {
      assert y in WithCount(top, y.1);
    }
  }

  /** The ranking of `get_stats` (`sorted(...)[:5]`): the five entries with
      the largest counts, in non-increasing order. Per count, the entries
      kept are the first ones of `items` with that count, and every count
      above the smallest one reported is reported in full. */
  function Rank(items: seq<Ranked>): (r: seq<Ranked>)
    ensures |r| == if |items| < 5 then |items| else 5
    ensures NonIncreasing(r)
    ensures forall y :: y in r ==> y in items
    ensures forall c :: WithCount(r, c) <= WithCount(items, c)
    ensures |r| > 0 ==> forall c :: c > r[|r| - 1].1 ==> WithCount(r, c) == WithCount(items, c)
  {
    var n := if |items| <= 5 then |items| else 5;
    TopFacts(items, n);
    SortByCount(items)[..n]
  }

  /** Insertion keeps entries distinct when the new one is not present. */
  lemma {:induction false} InsertDistinct(s: seq<Ranked>, x: Ranked)
    requires NonIncreasing(s) && Distinct(s) && x !in s
    ensures Distinct(Insert(s, x))
    decreases |s|
  {
    if |s| > 0 && s[0].1 >= x.1 {
      var rest := s[1..];
      assert Distinct(rest) && NonIncreasing(rest);
      assert x !in rest;
      InsertDistinct(rest, x);
      assert s[0] !in Insert(rest, x) by {
        assert s[0] !in rest;
      }
    }
  }

  /** Sorting keeps entries distinct. */
  lemma {:induction false} SortDistinct(s: seq<Ranked>)
    requires Distinct(s)
    ensures Distinct(SortByCount(s))
    decreases |s|
  {
    if |s| > 0 {
      var front := s[..|s| - 1];
      var last := s[|s| - 1];
      assert Distinct(front);
      SortDistinct(front);
      var sorted := SortByCount(front);
      forall y | y in sorted ensures y in front {
        assert y in WithCount(sorted, y.1);
      }
      assert last !in front;
      InsertDistinct(sorted, last);
    }
  }

  // ----- ranked tables -----

  /** `[(k, count(k)) for k in keys]`. */
  function Tabulate(keys: seq<Path>, count: Path -> nat): (r: seq<Ranked>)
    ensures |r| == |keys|
    ensures forall i :: 0 <= i < |r| ==> r[i].0 == keys[i] && r[i].1 == count(keys[i])
    decreases |keys|
  {
    if |keys| == 0 then [] else [(keys[0], count(keys[0]))] + Tabulate(keys[1..], count)
  }

  /** Every entry of `items` pairs a key with its count. */
  ghost predicate Tabled(items: seq<Ranked>, count: Path -> nat) {
    forall y :: y in items ==> y.1 == count(y.0)
  }

  /** No two entries share a key. */
  ghost predicate DistinctKeys(items: seq<Ranked>) {
    forall i, j :: 0 <= i < j < |items| ==> items[i].0 != items[j].0
  }

  lemma TabulateFacts(keys: seq<Path>, count: Path -> nat)
    requires Distinct(keys)
    ensures Tabled(Tabulate(keys, count), count)
    ensures Distinct(Tabulate(keys, count))
    ensures forall y :: y in Tabulate(keys, count) <==> y.0 in keys && y.1 == count(y.0)
  {
    var items := Tabulate(keys, count);
    forall y ensures y in items <==> y.0 in keys && y.1 == count(y.0) {
      if y.0 in keys && y.1 == count(y.0) {
        var i :| 0 <= i < |keys| && keys[i] == y.0;
        assert items[i] == y;
      }
    }
    forall i, j | 0 <= i < j < |items| ensures items[i] != items[j] {
      assert items[i].0 == keys[i] && items[j].0 == keys[j];
    }
  }

  /** Ranking a table of distinct entries keeps them distinct, and then no
      two share a key. */
  lemma RankKeys(items: seq<Ranked>, count: Path -> nat)
    requires Tabled(items, count) && Distinct(items)
    ensures Tabled(Rank(items), count)
    ensures DistinctKeys(Rank(items))
  {
    var r := Rank(items);
    SortDistinct(items);
    assert r == SortByCount(items)[..|r|];
    forall i, j | 0 <= i < j < |r| ensures r[i].0 != r[j].0 {
      assert r[i] == SortByCount(items)[i] && r[j] == SortByCount(items)[j];
      assert r[i] in items && r[j] in items;
    }
  }

  /** An entry counting more than the last one ranked is ranked. */
  lemma RankComplete(items: seq<Ranked>, y: Ranked)
    requires y in items && |Rank(items)| > 0 && y.1 > Rank(items)[|Rank(items)| - 1].1
    ensures y in Rank(items)
  {
    assert y in WithCount(items, y.1);
  }

  /** `r` lists five of the most imported paths (all of them when fewer are
      imported), each once and with its number of importers, most imported
      first; no path left out has more importers than the last one listed. */
  ghost predicate TopImported(g: DependencyGraph, r: seq<Ranked>) {
    && |r| == (if |Imported(g)| < 5 then |Imported(g)| else 5)
    && NonIncreasing(r)
    && (forall y :: y in r ==> y.0 in Imported(g) && y.1 == |Importers(g, y.0)|)
    && DistinctKeys(r)
    && (|r| > 0 ==> forall q :: q in Imported(g) && |Importers(g, q)| > r[|r| - 1].1 ==> (q, |Importers(g, q)|) in r)
  }

  /** `most_imported`: the five paths imported by the most nodes, each with
      its number of importers, most imported first. */
  method MostImported(g: DependencyGraph) returns (r: seq<Ranked>)
    requires g.nodes.Valid()
    ensures TopImported(g, r)
  {
    var counts := ImportCounts(g);
    var keys := counts.keys;
    var count := q => CountOf(counts, q);
    var items := Tabulate(keys, count);
    r := Rank(items);
    assert Distinct(keys);
    assert forall q :: q in keys <==> q in Imported(g) by {
      assert forall q :: q in keys <==> q in (set k | k in keys);
    }
    assert (set k | k in keys) == Imported(g);
    DistinctSize(keys);
    TabulateFacts(keys, count);
    RankKeys(items, count);
    if |r| > 0 {
      forall q | q in Imported(g) && |Importers(g, q)| > r[|r| - 1].1 ensures (q, |Importers(g, q)|) in r {
        RankComplete(items, (q, count(q)));
      }
    }
  }

  /** The number of imports of each node, in node order. */
  function ImportSizes(g: DependencyGraph): seq<Ranked> {
    Tabulate(g.nodes.keys, p => |Succ(g, p)|)
  }

  lemma ImportSizesFacts(g: DependencyGraph)
    requires g.nodes.Valid()
    ensures |ImportSizes(g)| == |g.nodes.entries|
    ensures Tabled(ImportSizes(g), p => |Succ(g, p)|) && Distinct(ImportSizes(g))
    ensures forall y :: y in ImportSizes(g) <==> y.0 in g.nodes.entries && y.1 == |Succ(g, y.0)|
  {
    var keys := g.nodes.keys;
    assert forall p :: p in keys <==> p in g.nodes.entries by {
      assert forall p :: p in keys <==> p in (set k | k in keys);
    }
    DistinctSize(keys);
    TabulateFacts(keys, p => |Succ(g, p)|);
  }

  /** `most_imports`: the five nodes importing the most files, each with its
      number of imports, largest first; ties keep the node order. */
  function MostImports(g: DependencyGraph): (r: seq<Ranked>)
    requires g.nodes.Valid()
    ensures |r| == if |g.nodes.entries| < 5 then |g.nodes.entries| else 5
    ensures NonIncreasing(r)
    ensures forall y :: y in r ==> y.0 in g.nodes.entries && y.1 == |Succ(g, y.0)|
    ensures DistinctKeys(r)
    ensures |r| > 0 ==> forall p :: p in g.nodes.entries && |Succ(g, p)| > r[|r| - 1].1 ==> (p, |Succ(g, p)|) in r
    ensures forall c :: WithCount(r, c) <= WithCount(ImportSizes(g), c)
  {
    ImportSizesFacts(g);
    RankKeys(ImportSizes(g), p => |Succ(g, p)|);
    assert |Rank(ImportSizes(g))| > 0 ==> forall p :: p in g.nodes.entries && |Succ(g, p)| > Rank(ImportSizes(g))[|Rank(ImportSizes(g))| - 1].1 ==> (p, |Succ(g, p)|) in Rank(ImportSizes(g)) by {
      forall p | p in g.nodes.entries && |Rank(ImportSizes(g))| > 0 && |Succ(g, p)| > Rank(ImportSizes(g))[|Rank(ImportSizes(g))| - 1].1
        ensures (p, |Succ(g, p)|) in Rank(ImportSizes(g))
      {
        RankComplete(ImportSizes(g), (p, |Succ(g, p)|));
      }
    }
    Rank(ImportSizes(g))
  }

  // ----- cycle count -----

  /** The files mutually reachable with `x`: its strongly connected
      component. */
  ghost function ClassOf(g: DependencyGraph, x: Path): set<Path> {
    set z | z in g.nodes.entries && Mutual(g, x, z)
  }

  /** `x` lies on a cycle through some other file. */
  ghost predicate OnCycle(g: DependencyGraph, x: Path) {
    exists z :: z != x && Mutual(g, x, z)
  }

  /** The components of two or more files. */
  ghost function CycleClasses(g: DependencyGraph): set<set<Path>> {
    set x | x in g.nodes.entries && OnCycle(g, x) :: ClassOf(g, x)
  }

  /** A reported cycle is the component of each of its files. */
  lemma ReportedClass(g: DependencyGraph, cycles: seq<seq<Path>>, i: nat, x: Path)
    requires IsCycleReport(g, cycles) && i < |cycles| && x in cycles[i]
    ensures Members(cycles[i]) == ClassOf(g, x)
  {
    forall z ensures z in cycles[i] <==> z in ClassOf(g, x) {
      if z in cycles[i] {
        var other := if cycles[i][0] == z then cycles[i][1] else cycles[i][0];
        assert other in cycles[i] && Reaches(g, z, other);
        ReachesOtherIsNode(g, z, other);
        assert Mutual(g, x, z);
      }
    }
  }

  /** The `cycles` count of `get_stats` does not depend on the order Tarjan's
      algorithm visits the files: it is the number of components of two or
      more files. */
  lemma ReportCount(g: DependencyGraph, cycles: seq<seq<Path>>)
    requires IsCycleReport(g, cycles)
    ensures |cycles| == |CycleClasses(g)|
  {
    var classes := seq(|cycles|, i requires 0 <= i < |cycles| => Members(cycles[i]));
    assert Distinct(classes) by {
      forall i, j | 0 <= i < j < |classes| ensures classes[i] != classes[j] {
        var x := cycles[i][0];
        assert x in classes[i] && x !in cycles[j];
      }
    }
    DistinctSize(classes);
    forall c ensures c in classes <==> c in CycleClasses(g) {
      if c in classes {
        var i :| 0 <= i < |classes| && classes[i] == c;
        var x := cycles[i][0];
        var z := cycles[i][1];
        ReportedClass(g, cycles, i, x);
        assert Mutual(g, x, z) && z != x;
        ReachesOtherIsNode(g, x, z);
      }
      if c in CycleClasses(g) {
        var x :| x in g.nodes.entries && OnCycle(g, x) && c == ClassOf(g, x);
        var z :| z != x && Mutual(g, x, z);
        var i :| 0 <= i < |cycles| && x in cycles[i];
        ReportedClass(g, cycles, i, x);
        assert classes[i] == c;
      }
    }
    assert (set c | c in classes) == CycleClasses(g);
  }

  // ----- the statistics -----

  /** The dictionary `get_stats` returns. */
  datatype GraphStats = GraphStats(
    totalFiles: nat,
    totalDependencies: nat,
    totalExternal: nat,
    cycles: nat,
    mostImported: seq<Ranked>,
    mostImports: seq<Ranked>)

  /** `get_stats`: the totals count the files, the import edges and the
      (file, external module) pairs; `cycles` counts the components of two or
      more files. */
  method GetStats(g: DependencyGraph) returns (st: GraphStats)
    requires g.nodes.Valid()
    ensures st.totalFiles == |g.nodes.entries|
    ensures st.totalDependencies == |Edges(g)|
    ensures st.totalExternal == |ExternalPairs(g)|
    ensures st.cycles == |CycleClasses(g)|
    ensures TopImported(g, st.mostImported)
    ensures st.mostImports == MostImports(g)
  {
    var cycles := FindCycles(g);
    ReportCount(g, cycles);
    var mostImported := MostImported(g);
    DependenciesCountEdges(g);
    ExternalCountsPairs(g);
    assert (set k | k in g.nodes.keys) == g.nodes.entries.Keys;
    DistinctSize(g.nodes.keys);
    st := GraphStats(|g.nodes.keys|, TotalDependencies(g), TotalExternal(g), |cycles|,
                     mostImported, MostImports(g));
  }
}
