/** The graph of the statistics unit test: `a` imports `b` and `c`, `c`
    imports `b`, and `a` imports the external module `requests`. */
module StatsExamples {
  import opened Paths
  import opened Graphs
  import opened Reach
  import opened Tarjan
  import opened Stats
  import opened CycleExamples

  ghost predicate StatsShape(g: DependencyGraph, a: Path, b: Path, c: Path) {
    && (forall x :: x in g.nodes.entries <==> x == a || x == b || x == c)
    && (forall x, y :: y in Succ(g, x) <==> (x == a && y == b) || (x == a && y == c) || (x == c && y == b))
    && (forall x, n :: n in Externals(g, x) <==> x == a && n == "requests")
  }

  /** The three `add_dependency` calls of the test. */
  function StatsImports(a: Path, b: Path, c: Path): DependencyGraph {
    AddDependency(AddDependency(AddDependency(EmptyGraph(), a, b), a, c), c, b)
  }

  /** Then `add_external(a, "requests")`. */
  function StatsGraph(a: Path, b: Path, c: Path): DependencyGraph {
    AddExternal(StatsImports(a, b, c), a, "requests")
  }

  lemma StatsImportsEdges(a: Path, b: Path, c: Path)
    requires a != b && b != c && a != c
    ensures forall x, y :: y in Succ(StatsImports(a, b, c), x) <==> (x == a && y == b) || (x == a && y == c) || (x == c && y == b)
  {
    var g1 := AddDependency(EmptyGraph(), a, b);
    var g2 := AddDependency(g1, a, c);
    AddDependencySucc(EmptyGraph(), a, b);
    AddDependencySucc(g1, a, c);
    AddDependencySucc(g2, c, b);
  }

  /** `add_dependency` adds the two files as nodes and no external
      import. */
  lemma DependencyNodes(g: DependencyGraph, from: Path, to: Path)
    requires g.nodes.Valid()
    ensures forall x :: x in AddDependency(g, from, to).nodes.entries <==> x in g.nodes.entries || x == from || x == to
    ensures forall x, n :: n in Externals(AddDependency(g, from, to), x) <==> n in Externals(g, x)
  {
    var r := AddDependency(g, from, to);
    forall x, n ensures n in Externals(r, x) <==> n in Externals(g, x) {
      assert n in Externals(r, x) <==> HasExternal(r, x, n);
      assert n in Externals(g, x) <==> HasExternal(g, x, n);
    }
  }

  lemma StatsImportsNodes(a: Path, b: Path, c: Path)
    ensures forall x :: x in StatsImports(a, b, c).nodes.entries <==> x == a || x == b || x == c
    ensures forall x, n :: n !in Externals(StatsImports(a, b, c), x)
  {
    var g0 := EmptyGraph();
    var g1 := AddDependency(g0, a, b);
    var g2 := AddDependency(g1, a, c);
    DependencyNodes(g0, a, b);
    DependencyNodes(g1, a, c);
    DependencyNodes(g2, c, b);
  }

  /** `add_external` adds no import edge. */
  lemma AddExternalSucc(g: DependencyGraph, from: Path, name: string)
    requires g.nodes.Valid()
    ensures forall x :: Succ(AddExternal(g, from, name), x) == Succ(g, x)
  {
    var r := AddExternal(g, from, name);
    forall x, y ensures y in Succ(r, x) <==> y in Succ(g, x) {
      assert y in Succ(r, x) <==> HasEdge(r, x, y);
      assert y in Succ(g, x) <==> HasEdge(g, x, y);
    }
  }

  /** `add_external` adds `name` to the externals of `from` alone. */
  lemma AddExternalExternals(g: DependencyGraph, from: Path, name: string)
    requires g.nodes.Valid()
    ensures forall x, n :: n in Externals(AddExternal(g, from, name), x) <==> n in Externals(g, x) || (x == from && n == name)
  {
    var r := AddExternal(g, from, name);
    forall x, n ensures n in Externals(r, x) <==> n in Externals(g, x) || (x == from && n == name) {
      assert n in Externals(r, x) <==> HasExternal(r, x, n);
      assert n in Externals(g, x) <==> HasExternal(g, x, n);
    }
  }

  /** `add_external` adds `from` as a node. */
  lemma AddExternalNodes(g: DependencyGraph, from: Path, name: string)
    requires g.nodes.Valid()
    ensures forall x :: x in AddExternal(g, from, name).nodes.entries <==> x in g.nodes.entries || x == from
  {
  }

  lemma StatsGraphEdges(a: Path, b: Path, c: Path)
    requires a != b && b != c && a != c
    ensures forall x, y :: y in Succ(StatsGraph(a, b, c), x) <==> (x == a && y == b) || (x == a && y == c) || (x == c && y == b)
  {
    StatsImportsEdges(a, b, c);
    AddExternalSucc(StatsImports(a, b, c), a, "requests");
  }

  lemma StatsGraphNodes(a: Path, b: Path, c: Path)
    ensures forall x :: x in StatsGraph(a, b, c).nodes.entries <==> x == a || x == b || x == c
  {
    StatsImportsNodes(a, b, c);
    AddExternalNodes(StatsImports(a, b, c), a, "requests");
  }

  lemma StatsGraphExternals(a: Path, b: Path, c: Path)
    ensures forall x, n :: n in Externals(StatsGraph(a, b, c), x) <==> x == a && n == "requests"
  {
    StatsImportsNodes(a, b, c);
    AddExternalExternals(StatsImports(a, b, c), a, "requests");
  }

  lemma StatsGraphShape(a: Path, b: Path, c: Path)
    requires a != b && b != c && a != c
    ensures StatsShape(StatsGraph(a, b, c), a, b, c)
  {
    StatsGraphEdges(a, b, c);
    StatsGraphNodes(a, b, c);
    StatsGraphExternals(a, b, c);
  }

  /** Three files. */
  lemma StatsFiles(g: DependencyGraph, a: Path, b: Path, c: Path)
    requires a != b && b != c && a != c && StatsShape(g, a, b, c)
    ensures |g.nodes.entries| == 3
  {
    assert g.nodes.entries.Keys == {a, b, c};
  }

  /** Three import edges. */
  lemma StatsEdges(g: DependencyGraph, a: Path, b: Path, c: Path)
    requires a != b && b != c && a != c && StatsShape(g, a, b, c)
    ensures |Edges(g)| == 3
  {
    assert Edges(g) == {(a, b), (a, c), (c, b)} by {
      forall e | e in Edges(g) ensures e in {(a, b), (a, c), (c, b)} {
        assert e.1 in Succ(g, e.0);
      }
      assert b in Succ(g, a) && c in Succ(g, a) && b in Succ(g, c);
    }
  }

  /** One external import. */
  lemma StatsExternal(g: DependencyGraph, a: Path, b: Path, c: Path)
    requires StatsShape(g, a, b, c)
    ensures |ExternalPairs(g)| == 1
  {
    assert ExternalPairs(g) == {(a, "requests")} by {
      forall e | e in ExternalPairs(g) ensures e == (a, "requests") {
        assert e.1 in Externals(g, e.0);
      }
      assert "requests" in Externals(g, a);
    }
  }

  /** No cycle. */
  lemma StatsNoCycles(g: DependencyGraph, a: Path, b: Path, c: Path)
    requires a != b && b != c && a != c && StatsShape(g, a, b, c)
    ensures CycleClasses(g) == {}
  {
    forall x | x in g.nodes.entries ensures !OnCycle(g, x) {
      forall z | z != x ensures !Mutual(g, x, z) {
        Acyclic(g, a, b, c, x, z);
      }
    }
  }

  /** No two files reach each other. */
  lemma Acyclic(g: DependencyGraph, a: Path, b: Path, c: Path, x: Path, z: Path)
    requires a != b && b != c && a != c && StatsShape(g, a, b, c)
    requires z != x
    ensures !Mutual(g, x, z)
  {
    if !Mutual(g, x, z) {
      return;
    }
    var y := Leaves(g, x, z);
    var y' := Leaves(g, z, x);
    assert Closed(g, {b});
    if x == a {
      // `z` is `c`, whose one import `b` imports nothing.
      ClosedReaches(g, {b}, y', x);
    } else {
      ClosedReaches(g, {b}, y, z);
    }
  }

  /** `b` is imported by `a` and `c`, and `c` by `a` alone. */
  lemma StatsImporters(g: DependencyGraph, a: Path, b: Path, c: Path)
    requires a != b && b != c && a != c && StatsShape(g, a, b, c)
    ensures Imported(g) == {b, c}
    ensures |Importers(g, b)| == 2 && |Importers(g, c)| == 1
  {
    assert Imported(g) == {b, c} by {
      forall q | q in Imported(g) ensures q == b || q == c {
        var p :| p in g.nodes.entries && q in g.nodes.entries[p].imports;
        assert q in Succ(g, p);
      }
      assert b in Succ(g, a) && c in Succ(g, a);
    }
    assert Importers(g, b) == {a, c} by {
      assert b in Succ(g, a) && b in Succ(g, c);
      forall p | p in Importers(g, b) ensures p == a || p == c {
        assert b in Succ(g, p);
      }
    }
    assert Importers(g, c) == {a} by {
      assert c in Succ(g, a);
      forall p | p in Importers(g, c) ensures p == a {
        assert c in Succ(g, p);
      }
    }
    assert |{a, c}| == 2;
  }

  /** So `b` heads `most_imported`, with its two importers. */
  lemma StatsMostImported(g: DependencyGraph, a: Path, b: Path, c: Path, r: seq<Ranked>)
    requires a != b && b != c && a != c && StatsShape(g, a, b, c)
    requires TopImported(g, r)
    ensures |r| == 2 && r[0] == (b, 2)
  {
    StatsImporters(g, a, b, c);
    assert r[0] in r;
  }

  /** `get_stats` on the graph of the unit test. */
  method GetStatsOnTest() returns (st: GraphStats)
    ensures st.totalFiles == 3 && st.totalDependencies == 3 && st.totalExternal == 1
    ensures st.cycles == 0
    ensures |st.mostImported| == 2 && st.mostImported[0] == (B, 2)
  {
    assert A != B && A != C && B != C by {
      assert A[1][0] == 'a' && B[1][0] == 'b' && C[1][0] == 'c';
    }
    var g := StatsGraph(A, B, C);
    StatsGraphShape(A, B, C);
    st := GetStats(g);
    StatsFiles(g, A, B, C);
    StatsEdges(g, A, B, C);
    StatsExternal(g, A, B, C);
    StatsNoCycles(g, A, B, C);
    StatsMostImported(g, A, B, C, st.mostImported);
  }
}
