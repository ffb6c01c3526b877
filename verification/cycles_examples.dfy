/** The graphs of the cycle-detection unit tests, and the one report
    `find_cycles` can give for each. The lemmas hold for any distinct files;
    `FindCyclesOnTests` applies them to the files the tests name. */
module CycleExamples {
  import opened Paths
  import opened Graphs
  import opened Reach
  import opened Cycles
  import opened Tarjan

  const A: Path := ["project", "a.py"]
  const B: Path := ["project", "b.py"]
  const C: Path := ["project", "c.py"]
  const D: Path := ["project", "d.py"]

  /** A file that reaches a different one imports a file on the way. */
  lemma Leaves(g: DependencyGraph, x: Path, z: Path) returns (y: Path)
    requires Reaches(g, x, z) && x != z
    ensures y in Succ(g, x) && Reaches(g, y, z)
  {
    var w :| IsWalk(g, w) && w[0] == x && w[|w| - 1] == z;
    y := w[1];
    assert IsWalk(g, w[1..]) by {
      forall i | 0 <= i < |w[1..]| - 1 ensures w[1..][i + 1] in Succ(g, w[1..][i]) {
        assert w[1..][i] == w[i + 1] && w[1..][i + 1] == w[i + 2];
      }
    }
    assert w[1..][0] == y && w[1..][|w[1..]| - 1] == z;
  }

  /** A file that lies on a cycle with another imports something. */
  lemma Importer(g: DependencyGraph, cycles: seq<seq<Path>>, k: nat, x: Path) returns (y: Path)
    requires IsCycleReport(g, cycles) && k < |cycles| && x in cycles[k]
    ensures y in Succ(g, x)
  {
    ReportCyclic(g, cycles, x);
    var z :| z != x && Mutual(g, x, z);
    y := Leaves(g, x, z);
  }

  // ----- a imports b, b imports a -----

  ghost predicate TwoCycleShape(g: DependencyGraph, a: Path, b: Path) {
    forall x, y :: y in Succ(g, x) <==> (x == a && y == b) || (x == b && y == a)
  }

  /** `add_dependency(a, b)` then `add_dependency(b, a)`. */
  function TwoCycle(a: Path, b: Path): DependencyGraph {
    AddDependency(AddDependency(EmptyGraph(), a, b), b, a)
  }

  lemma TwoCycleEdges(a: Path, b: Path)
    requires a != b
    ensures TwoCycleShape(TwoCycle(a, b), a, b)
  {
    var g1 := AddDependency(EmptyGraph(), a, b);
    AddDependencySucc(EmptyGraph(), a, b);
    AddDependencySucc(g1, b, a);
  }

  /** One cycle, `{a, b}`. */
  lemma TwoCycleReport(g: DependencyGraph, a: Path, b: Path, cycles: seq<seq<Path>>)
    requires a != b && TwoCycleShape(g, a, b) && IsCycleReport(g, cycles)
    ensures |cycles| == 1 && Members(cycles[0]) == {a, b}
  {
    ReachesEdge(g, a, b);
    ReachesEdge(g, b, a);
    assert Mutual(g, a, b);
    ReportCyclic(g, cycles, a);
    var i :| 0 <= i < |cycles| && a in cycles[i];
    ReportMaximal(g, cycles, i, a, b);
    forall x | x in cycles[i] ensures x == a || x == b {
      var y := Importer(g, cycles, i, x);
    }
    if |cycles| > 1 {
      var k := if i == 0 then 1 else 0;
      var x := cycles[k][0];
      // `x` imports something, so it is `a` or `b`, which cycle `i` holds.
      var y := Importer(g, cycles, k, x);
    }
    assert Members(cycles[0]) == {a, b};
  }

  // ----- a imports b, b imports c, c imports a -----

  ghost predicate ThreeCycleShape(g: DependencyGraph, a: Path, b: Path, c: Path) {
    forall x, y :: y in Succ(g, x) <==> (x == a && y == b) || (x == b && y == c) || (x == c && y == a)
  }

  function ThreeCycle(a: Path, b: Path, c: Path): DependencyGraph {
    AddDependency(AddDependency(AddDependency(EmptyGraph(), a, b), b, c), c, a)
  }

  lemma ThreeCycleEdges(a: Path, b: Path, c: Path)
    requires a != b && b != c && a != c
    ensures ThreeCycleShape(ThreeCycle(a, b, c), a, b, c)
  {
    var g1 := AddDependency(EmptyGraph(), a, b);
    var g2 := AddDependency(g1, b, c);
    AddDependencySucc(EmptyGraph(), a, b);
    AddDependencySucc(g1, b, c);
    AddDependencySucc(g2, c, a);
  }

  /** One cycle, `{a, b, c}`. */
  lemma ThreeCycleReport(g: DependencyGraph, a: Path, b: Path, c: Path, cycles: seq<seq<Path>>)
    requires a != b && b != c && a != c
    requires ThreeCycleShape(g, a, b, c) && IsCycleReport(g, cycles)
    ensures |cycles| == 1 && Members(cycles[0]) == {a, b, c}
  {
    ReachesEdge(g, a, b);
    ReachesEdge(g, b, c);
    ReachesEdge(g, c, a);
    ReachesTrans(g, a, b, c);
    ReachesTrans(g, c, a, b);
    ReachesTrans(g, b, c, a);
    assert Mutual(g, a, b);
    ReportCyclic(g, cycles, a);
    var i :| 0 <= i < |cycles| && a in cycles[i];
    ReportMaximal(g, cycles, i, a, b);
    ReportMaximal(g, cycles, i, a, c);
    forall x | x in cycles[i] ensures x == a || x == b || x == c {
      var y := Importer(g, cycles, i, x);
    }
    if |cycles| > 1 {
      var k := if i == 0 then 1 else 0;
      var x := cycles[k][0];
      var y := Importer(g, cycles, k, x);
      ReportDisjoint(g, cycles, i, k, x);
    }
    assert Members(cycles[0]) == {a, b, c};
  }

  // ----- a imports b, b imports c -----

  ghost predicate ChainShape(g: DependencyGraph, a: Path, b: Path, c: Path) {
    forall x, y :: y in Succ(g, x) <==> (x == a && y == b) || (x == b && y == c)
  }

  function Chain(a: Path, b: Path, c: Path): DependencyGraph {
    AddDependency(AddDependency(EmptyGraph(), a, b), b, c)
  }

  lemma ChainEdges(a: Path, b: Path, c: Path)
    requires a != b && b != c && a != c
    ensures ChainShape(Chain(a, b, c), a, b, c)
  {
    var g1 := AddDependency(EmptyGraph(), a, b);
    AddDependencySucc(EmptyGraph(), a, b);
    AddDependencySucc(g1, b, c);
  }

  /** No cycle. */
  lemma ChainReport(g: DependencyGraph, a: Path, b: Path, c: Path, cycles: seq<seq<Path>>)
    requires a != b && b != c && a != c
    requires ChainShape(g, a, b, c) && IsCycleReport(g, cycles)
    ensures cycles == []
  {
    assert Closed(g, {b, c});
    assert Closed(g, {c});
    if |cycles| > 0 {
      var x := cycles[0][0];
      ReportCyclic(g, cycles, x);
      var z :| z != x && Mutual(g, x, z);
      var y := Leaves(g, x, z);
      var y' := Leaves(g, z, x);
      if x == a {
        ClosedReaches(g, {b, c}, y', x);
      } else {
        ClosedReaches(g, {b, c}, y, z);
        ClosedReaches(g, {c}, y, z);
        ClosedReaches(g, {c}, y', x);
      }
    }
  }

  // ----- a imports b, b imports a, c imports d, d imports c -----

  ghost predicate TwoCyclesShape(g: DependencyGraph, a: Path, b: Path, c: Path, d: Path) {
    forall x, y :: y in Succ(g, x) <==> (x == a && y == b) || (x == b && y == a) || (x == c && y == d) || (x == d && y == c)
  }

  function TwoCycles(a: Path, b: Path, c: Path, d: Path): DependencyGraph {
    AddDependency(AddDependency(AddDependency(AddDependency(EmptyGraph(), a, b), b, a), c, d), d, c)
  }

  lemma TwoCyclesEdges(a: Path, b: Path, c: Path, d: Path)
    requires a != b && a != c && a != d && b != c && b != d && c != d
    ensures TwoCyclesShape(TwoCycles(a, b, c, d), a, b, c, d)
  {
    var g1 := AddDependency(EmptyGraph(), a, b);
    var g2 := AddDependency(g1, b, a);
    var g3 := AddDependency(g2, c, d);
    AddDependencySucc(EmptyGraph(), a, b);
    AddDependencySucc(g1, b, a);
    AddDependencySucc(g2, c, d);
    AddDependencySucc(g3, d, c);
  }

  /** Every cycle of the report is the one holding `a` or the one holding
      `c`. */
  lemma TwoCyclesCover(g: DependencyGraph, a: Path, b: Path, c: Path, d: Path, cycles: seq<seq<Path>>,
                       i: nat, j: nat, k: nat)
    requires a != b && a != c && a != d && b != c && b != d && c != d
    requires TwoCyclesShape(g, a, b, c, d) && IsCycleReport(g, cycles)
    requires i < |cycles| && j < |cycles| && k < |cycles| && a in cycles[i] && c in cycles[j]
    ensures k == i || k == j
  {
    var x := cycles[k][0];
    var y := Importer(g, cycles, k, x);
    ReachesEdge(g, a, b);
    ReachesEdge(g, b, a);
    ReachesEdge(g, c, d);
    ReachesEdge(g, d, c);
    if x == a || x == b {
      ReportMaximal(g, cycles, i, a, x);
      ReportDisjoint(g, cycles, i, k, x);
    } else {
      ReportMaximal(g, cycles, j, c, x);
      ReportDisjoint(g, cycles, j, k, x);
    }
  }

  /** Two files that import each other and nothing else form one cycle of
      any report, and it holds exactly those two. */
  lemma PairCycle(g: DependencyGraph, cycles: seq<seq<Path>>, a: Path, b: Path) returns (i: nat)
    requires a != b && IsCycleReport(g, cycles) && Closed(g, {a, b})
    requires b in Succ(g, a) && a in Succ(g, b)
    ensures i < |cycles| && a in cycles[i] && Members(cycles[i]) == {a, b}
  {
    ReachesEdge(g, a, b);
    ReachesEdge(g, b, a);
    assert Mutual(g, a, b);
    ReportCyclic(g, cycles, a);
    i :| 0 <= i < |cycles| && a in cycles[i];
    ReportMaximal(g, cycles, i, a, b);
    forall x | x in cycles[i] ensures x in {a, b} {
      ClosedReaches(g, {a, b}, a, x);
    }
  }

  /** Two cycles, `{a, b}` and `{c, d}`. */
  lemma TwoCyclesReport(g: DependencyGraph, a: Path, b: Path, c: Path, d: Path, cycles: seq<seq<Path>>)
    requires a != b && a != c && a != d && b != c && b != d && c != d
    requires TwoCyclesShape(g, a, b, c, d) && IsCycleReport(g, cycles)
    ensures |cycles| == 2
    ensures exists i, j :: 0 <= i < |cycles| && 0 <= j < |cycles| && Members(cycles[i]) == {a, b} && Members(cycles[j]) == {c, d}
  {
    assert Closed(g, {a, b}) && Closed(g, {c, d});
    var i := PairCycle(g, cycles, a, b);
    var j := PairCycle(g, cycles, c, d);
    assert a !in Members(cycles[j]);
    if |cycles| > 2 {
      TwoCyclesCover(g, a, b, c, d, cycles, i, j, 0);
      TwoCyclesCover(g, a, b, c, d, cycles, i, j, 1);
      TwoCyclesCover(g, a, b, c, d, cycles, i, j, 2);
    }
  }

  // ----- a imports itself -----

  ghost predicate SelfImportShape(g: DependencyGraph, a: Path) {
    forall x, y :: y in Succ(g, x) <==> x == a && y == a
  }

  function SelfImport(a: Path): DependencyGraph {
    AddDependency(EmptyGraph(), a, a)
  }

  lemma SelfImportEdges(a: Path)
    ensures SelfImportShape(SelfImport(a), a)
  {
    AddDependencySucc(EmptyGraph(), a, a);
  }

  /** A file importing itself is not a cycle of two or more files. */
  lemma SelfImportReport(g: DependencyGraph, a: Path, cycles: seq<seq<Path>>)
    requires SelfImportShape(g, a) && IsCycleReport(g, cycles)
    ensures cycles == []
  {
    assert Closed(g, {a});
    if |cycles| > 0 {
      var x := cycles[0][0];
      ReportCyclic(g, cycles, x);
      var z :| z != x && Mutual(g, x, z);
      var y := Leaves(g, x, z);
      ClosedReaches(g, {a}, y, z);
      var y' := Leaves(g, z, x);
    }
  }

  /** `find_cycles` on the graphs of the unit tests. */
  method FindCyclesOnTests() returns (two: seq<seq<Path>>, three: seq<seq<Path>>, chain: seq<seq<Path>>,
                                      pairs: seq<seq<Path>>, selfImport: seq<seq<Path>>)
    ensures |two| == 1 && Members(two[0]) == {A, B}
    ensures |three| == 1 && Members(three[0]) == {A, B, C}
    ensures chain == [] && |pairs| == 2 && selfImport == []
  {
    assert A != B && A != C && A != D && B != C && B != D && C != D by {
      assert A[1][0] == 'a' && B[1][0] == 'b' && C[1][0] == 'c' && D[1][0] == 'd';
    }
    TwoCycleEdges(A, B);
    two := FindCycles(TwoCycle(A, B));
    TwoCycleReport(TwoCycle(A, B), A, B, two);
    ThreeCycleEdges(A, B, C);
    three := FindCycles(ThreeCycle(A, B, C));
    ThreeCycleReport(ThreeCycle(A, B, C), A, B, C, three);
    ChainEdges(A, B, C);
    chain := FindCycles(Chain(A, B, C));
    ChainReport(Chain(A, B, C), A, B, C, chain);
    TwoCyclesEdges(A, B, C, D);
    pairs := FindCycles(TwoCycles(A, B, C, D));
    TwoCyclesReport(TwoCycles(A, B, C, D), A, B, C, D, pairs);
    SelfImportEdges(A);
    selfImport := FindCycles(SelfImport(A));
    SelfImportReport(SelfImport(A), A, selfImport);
  }
}
