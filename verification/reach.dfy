/** Reachability along import edges: the relation the cycle detector and the
    import tracer are specified against. */
module Reach {
  import opened Paths
  import opened Graphs

  /** A non-empty sequence of files, each importing the next. */
  ghost predicate IsWalk(g: DependencyGraph, w: seq<Path>) {
    |w| >= 1 && forall i :: 0 <= i < |w| - 1 ==> w[i + 1] in Succ(g, w[i])
  }

  /** Every file of `w` after the first lies in `within`. */
  ghost predicate StaysIn(w: seq<Path>, within: set<Path>) {
    forall i :: 1 <= i < |w| ==> w[i] in within
  }

  /** `y` is reachable from `x` by zero or more import edges. */
  ghost predicate Reaches(g: DependencyGraph, x: Path, y: Path) {
    exists w :: IsWalk(g, w) && w[0] == x && w[|w| - 1] == y
  }

  /** `y` is reachable from `x` through files of `within` only. */
  ghost predicate ReachesWithin(g: DependencyGraph, within: set<Path>, x: Path, y: Path) {
    exists w :: IsWalk(g, w) && StaysIn(w, within) && w[0] == x && w[|w| - 1] == y
  }

  /** `x` and `y` lie on a common cycle (or are equal). */
  ghost predicate Mutual(g: DependencyGraph, x: Path, y: Path) {
    Reaches(g, x, y) && Reaches(g, y, x)
  }

  /** No import edge leaves `d`. */
  ghost predicate Closed(g: DependencyGraph, d: set<Path>) {
    forall x, y :: x in d && y in Succ(g, x) ==> y in d
  }

  lemma ReachesRefl(g: DependencyGraph, x: Path)
    ensures Reaches(g, x, x)
  {
    assert IsWalk(g, [x]);
  }

  lemma ReachesEdge(g: DependencyGraph, x: Path, y: Path)
    requires y in Succ(g, x)
    ensures Reaches(g, x, y)
  {
    assert IsWalk(g, [x, y]);
  }

  /** Walks compose. */
  lemma ReachesTrans(g: DependencyGraph, x: Path, y: Path, z: Path)
    requires Reaches(g, x, y) && Reaches(g, y, z)
    ensures Reaches(g, x, z)
  {
    var w1 :| IsWalk(g, w1) && w1[0] == x && w1[|w1| - 1] == y;
    var w2 :| IsWalk(g, w2) && w2[0] == y && w2[|w2| - 1] == z;
    var w := w1 + w2[1..];
    assert IsWalk(g, w) by {
      forall i | 0 <= i < |w| - 1 ensures w[i + 1] in Succ(g, w[i]) {
        if i < |w1| - 1 {
          assert w[i] == w1[i] && w[i + 1] == w1[i + 1];
        } else {
          assert w[i] == w2[i - |w1| + 1] && w[i + 1] == w2[i - |w1| + 2];
        }
      }
    }
    assert w[|w| - 1] == z;
  }

  /** A walk that starts in a set no edge leaves never leaves it. */
  lemma {:induction false} WalkStaysClosed(g: DependencyGraph, d: set<Path>, w: seq<Path>, i: nat)
    requires IsWalk(g, w) && w[0] in d && Closed(g, d) && i < |w|
    ensures w[i] in d
  {
    if i > 0 {
      WalkStaysClosed(g, d, w, i - 1);
      assert w[i] in Succ(g, w[i - 1]);
    }
  }

  /** Everything reachable from a closed set is in it. */
  lemma ClosedReaches(g: DependencyGraph, d: set<Path>, x: Path, y: Path)
    requires Closed(g, d) && x in d && Reaches(g, x, y)
    ensures y in d
  {
    var w :| IsWalk(g, w) && w[0] == x && w[|w| - 1] == y;
    WalkStaysClosed(g, d, w, |w| - 1);
  }

  lemma ReachesWithinStep(g: DependencyGraph, within: set<Path>, x: Path, y: Path, z: Path)
    requires ReachesWithin(g, within, x, y) && z in Succ(g, y) && z in within
    ensures ReachesWithin(g, within, x, z)
  {
    var w :| IsWalk(g, w) && StaysIn(w, within) && w[0] == x && w[|w| - 1] == y;
    var w' := w + [z];
    assert IsWalk(g, w') by {
      forall i | 0 <= i < |w'| - 1 ensures w'[i + 1] in Succ(g, w'[i]) {
        if i < |w| - 1 {
          assert w'[i] == w[i] && w'[i + 1] == w[i + 1];
        }
      }
    }
    assert StaysIn(w', within);
  }

  lemma ReachesWithinRefl(g: DependencyGraph, within: set<Path>, x: Path)
    ensures ReachesWithin(g, within, x, x)
  {
    assert IsWalk(g, [x]) && StaysIn([x], within);
  }

  /** A set that contains `x` and that no edge into `within` leaves contains
      everything reachable from `x` within `within`. */
  lemma {:induction false} WithinClosed(g: DependencyGraph, within: set<Path>, d: set<Path>, w: seq<Path>, i: nat)
    requires IsWalk(g, w) && StaysIn(w, within) && w[0] in d && i < |w|
    requires forall a, b :: a in d && b in Succ(g, a) && b in within ==> b in d
    ensures w[i] in d
  {
    if i > 0 {
      WithinClosed(g, within, d, w, i - 1);
      assert w[i] in Succ(g, w[i - 1]);
    }
  }

  lemma WithinClosedReaches(g: DependencyGraph, within: set<Path>, d: set<Path>, x: Path, y: Path)
    requires x in d && ReachesWithin(g, within, x, y)
    requires forall a, b :: a in d && b in Succ(g, a) && b in within ==> b in d
    ensures y in d
  {
    var w :| IsWalk(g, w) && StaysIn(w, within) && w[0] == x && w[|w| - 1] == y;
    WithinClosed(g, within, d, w, |w| - 1);
  }
}
