/** Cycle detection (`find_cycles` and `_is_real_cycle` of fastdeps/graph.py):
    Tarjan's strongly-connected-components algorithm over the import edges,
    reporting every component of two or more files that the breadth-first
    check confirms. */
module Cycles {
  import opened Paths
  import opened Graphs
  import opened Reach

  /** The files listed in `s`. */
  function Members(s: seq<Path>): set<Path> {
    set x | x in s
  }

  /** `u` is reachable from `start` inside `within`, is not `start`, and
      imports `start`: the edge that closes a cycle through `start`. */
  ghost predicate ClosesCycle(g: DependencyGraph, within: set<Path>, start: Path, u: Path) {
    ReachesWithin(g, within, start, u) && u != start && start in Succ(g, u)
  }

  /** The files in the queue are reachable from `start` inside `within` and
      lie in `within` or are `start`. */
  ghost predicate QueueReached(g: DependencyGraph, within: set<Path>, start: Path, queue: seq<Path>) {
    forall i :: 0 <= i < |queue| ==> queue[i] in within + {start} && ReachesWithin(g, within, start, queue[i])
  }

  /** The inner loop of one search: the imports of `current` are examined;
      an import of `start` from a file other than `start` ends the search,
      and every other import inside `within` not yet visited is queued. */
  method Expand(g: DependencyGraph, within: set<Path>, start: Path, current: Path,
                visited: set<Path>, queue: seq<Path>) returns (found: bool, queue': seq<Path>)
    requires ReachesWithin(g, within, start, current)
    requires QueueReached(g, within, start, queue)
    ensures found ==> ClosesCycle(g, within, start, current)
    ensures !found ==> current != start ==> start !in Succ(g, current)
    ensures QueueReached(g, within, start, queue')
    ensures |queue| <= |queue'| && queue'[..|queue|] == queue
    ensures !found ==> forall b :: b in Succ(g, current) && b in within ==> b in visited || b in queue'
  {
    var todo := Succ(g, current);
    queue' := queue;
    while todo != {}
      invariant todo <= Succ(g, current)
      invariant QueueReached(g, within, start, queue')
      invariant |queue| <= |queue'| && queue'[..|queue|] == queue
      invariant forall b :: b in Succ(g, current) - todo && b in within ==> b in visited || b in queue'
      invariant current != start ==> start !in Succ(g, current) - todo
      decreases |todo|
    {
      var neighbor :| neighbor in todo;
      todo := todo - {neighbor};
      if neighbor == start && current != start {
        return true, queue';
      }
      if neighbor in within && neighbor !in visited {
        ReachesWithinStep(g, within, start, current, neighbor);
        queue' := queue' + [neighbor];
      }
    }
    return false, queue';
  }

  /** What the search of `SearchBack` keeps true: every queued or visited
      file is reached from `start` inside `within`, `start` is queued or
      visited, the imports inside `within` of a visited file are visited or
      queued, and no visited file other than `start` imports `start`. */
  ghost predicate SearchInv(g: DependencyGraph, within: set<Path>, start: Path, visited: set<Path>, queue: seq<Path>) {
    && QueueReached(g, within, start, queue)
    && (forall x :: x in visited ==> x in within + {start} && ReachesWithin(g, within, start, x))
    && (start in visited || start in queue)
    && (forall a, b :: a in visited && b in Succ(g, a) && b in within ==> b in visited || b in queue)
    && (forall a :: a in visited && a != start ==> start !in Succ(g, a))
  }

  /** One round of `_is_real_cycle`: a breadth-first search from `start`
      that only enters files of `within`, stopping with `true` at the first
      file other than `start` that imports `start`. */
  method SearchBack(g: DependencyGraph, within: set<Path>, start: Path) returns (found: bool)
    ensures found <==> exists u :: ClosesCycle(g, within, start, u)
  {
    var visited: set<Path> := {};
    var queue: seq<Path> := [start];
    ReachesWithinRefl(g, within, start);
    while queue != []
      invariant SearchInv(g, within, start, visited, queue)
      decreases |(within + {start}) - visited|, |queue|
    {
      var hit;
      hit, visited, queue := SearchStep(g, within, start, visited, queue);
      if hit {
        return true;
      }
    }
    forall u | ClosesCycle(g, within, start, u) ensures false {
      WithinClosedReaches(g, within, visited, start, u);
    }
    return false;
  }

  /** One pass of the search loop: the file at the head of the queue is
      dequeued and, unless already visited, expanded. */
  method SearchStep(g: DependencyGraph, within: set<Path>, start: Path, visited: set<Path>, queue: seq<Path>)
    returns (hit: bool, visited': set<Path>, queue': seq<Path>)
    requires SearchInv(g, within, start, visited, queue) && queue != []
    ensures hit ==> exists u :: ClosesCycle(g, within, start, u)
    ensures !hit ==> SearchInv(g, within, start, visited', queue')
    ensures !hit ==>
      (|(within + {start}) - visited'| < |(within + {start}) - visited|
       || (visited' == visited && |queue'| < |queue|))
  {
    var current := queue[0];
    queue' := queue[1..];
    assert forall x :: x in queue ==> x == current || x in queue';
    if current in visited {
      return false, visited, queue';
    }
    RemoveShrinks(within + {start}, visited, current);
    visited' := visited + {current};
    ghost var rest := queue';
    hit, queue' := Expand(g, within, start, current, visited', queue');
    if hit {
      return;
    }
    assert forall x :: x in queue ==> x in visited' || x in queue' by {
      forall x | x in queue ensures x in visited' || x in queue' {
        if x != current {
          var k :| 0 <= k < |queue| && queue[k] == x;
          assert rest[k - 1] == x;
          assert queue'[k - 1] == x;
        }
      }
    }
    assert forall a, b :: a in visited && b in Succ(g, a) && b in within ==> b in visited' || b in queue';
  }

  lemma RemoveShrinks<T>(all: set<T>, done: set<T>, x: T)
    requires x in all && x !in done
    ensures |all - (done + {x})| < |all - done|
  {
    assert all - done == (all - (done + {x})) + {x};
  }

  /** `_is_real_cycle`: some file of the component has a cycle back to it
      through the component. */
  method IsRealCycle(g: DependencyGraph, component: seq<Path>) returns (r: bool)
    ensures r <==> exists k, u :: 0 <= k < |component| && ClosesCycle(g, Members(component), component[k], u)
  {
    var within := Members(component);
    for k := 0 to |component|
      invariant forall j, u :: 0 <= j < k ==> !ClosesCycle(g, within, component[j], u)
    {
      var found := SearchBack(g, within, component[k]);
      if found {
        return true;
      }
    }
    return false;
  }

  /** Every file of a walk that ends at `x` and starts at `y`, when `x` and
      `y` are mutually reachable, is mutually reachable with `x`. */
  lemma WalkInComponent(g: DependencyGraph, w: seq<Path>, i: nat)
    requires IsWalk(g, w) && i < |w| && Reaches(g, w[|w| - 1], w[0])
    ensures Mutual(g, w[i], w[|w| - 1])
  {
    var x := w[|w| - 1];
    assert IsWalk(g, w[i..]) by {
      forall j | 0 <= j < |w[i..]| - 1 ensures w[i..][j + 1] in Succ(g, w[i..][j]) {
        assert w[i..][j] == w[i + j] && w[i..][j + 1] == w[i + j + 1];
      }
    }
    assert Reaches(g, w[i], x) by {
      assert w[i..][0] == w[i] && w[i..][|w[i..]| - 1] == x;
    }
    assert Reaches(g, w[0], w[i]) by {
      var front := w[..i + 1];
      assert IsWalk(g, front) by {
        forall j | 0 <= j < i ensures front[j + 1] in Succ(g, front[j]) {
          assert front[j] == w[j] && front[j + 1] == w[j + 1];
        }
      }
      assert front[0] == w[0] && front[i] == w[i];
    }
    ReachesTrans(g, x, w[0], w[i]);
  }

  /** A component of two or more mutually reachable files that contains every
      file mutually reachable with its members always passes
      `_is_real_cycle` (fastdeps/graph.py:101-121), which asks only that one
      member reach back to itself inside the component; so that check never
      rejects a component Tarjan's algorithm produces. */
  lemma ComponentIsRealCycle(g: DependencyGraph, component: seq<Path>, other: nat)
    requires 0 < other < |component| && component[other] != component[0]
    requires forall i, j :: 0 <= i < |component| && 0 <= j < |component| ==> Reaches(g, component[i], component[j])
    requires forall x, z :: x in component && Mutual(g, x, z) ==> z in component
    ensures exists k, u :: 0 <= k < |component| && ClosesCycle(g, Members(component), component[k], u)
  {
    var within := Members(component);
    var start := component[0];
    assert Reaches(g, component[other], start) && Reaches(g, start, component[other]);
    var w := CycleWalk(g, start, component[other]);
    var u := w[|w| - 1];
    var full := w + [start];
    WalkSnoc(g, w, start);
    ReachesRefl(g, start);
    assert StaysIn(w, within) by {
      forall i | 1 <= i < |w| ensures w[i] in within {
        WalkInComponent(g, full, i);
        assert full[i] == w[i] && full[|full| - 1] == start;
        assert Mutual(g, start, w[i]);
      }
    }
    assert ClosesCycle(g, within, start, u);
  }

  /** When `start` and another file `z` are mutually reachable, some walk
      from `start` ends at a file other than `start` that imports `start`. */
  lemma CycleWalk(g: DependencyGraph, start: Path, z: Path) returns (w: seq<Path>)
    requires z != start && Reaches(g, z, start) && Reaches(g, start, z)
    ensures IsWalk(g, w) && w[0] == start && w[|w| - 1] != start && start in Succ(g, w[|w| - 1])
  {
    var p :| IsWalk(g, p) && p[0] == z && p[|p| - 1] == start;
    // The first visit of `start` along `p` comes after some other file.
    var j :| 0 < j < |p| && p[j] == start && forall i :: 0 <= i < j ==> p[i] != start by {
      FirstOccurrence(p, start);
    }
    var q :| IsWalk(g, q) && q[0] == start && q[|q| - 1] == z;
    WalkPrefix(g, p, j);
    WalkJoin(g, q, p[..j]);
    w := q + p[..j][1..];
    assert w[|w| - 1] == p[j - 1];
  }

  /** A walk extended by an import of its last file is a walk. */
  lemma WalkSnoc(g: DependencyGraph, w: seq<Path>, x: Path)
    requires IsWalk(g, w) && x in Succ(g, w[|w| - 1])
    ensures IsWalk(g, w + [x])
  {
    var full := w + [x];
    forall i | 0 <= i < |full| - 1 ensures full[i + 1] in Succ(g, full[i]) {
      if i < |w| - 1 {
        assert full[i] == w[i] && full[i + 1] == w[i + 1];
      }
    }
  }

  /** A non-empty prefix of a walk is a walk. */
  lemma WalkPrefix(g: DependencyGraph, p: seq<Path>, n: nat)
    requires IsWalk(g, p) && 1 <= n <= |p|
    ensures IsWalk(g, p[..n])
  {
    forall i | 0 <= i < n - 1 ensures p[..n][i + 1] in Succ(g, p[..n][i]) {
      assert p[..n][i] == p[i] && p[..n][i + 1] == p[i + 1];
    }
  }

  /** Two walks meeting at a file join into one. */
  lemma WalkJoin(g: DependencyGraph, q: seq<Path>, r: seq<Path>)
    requires IsWalk(g, q) && IsWalk(g, r) && q[|q| - 1] == r[0]
    ensures IsWalk(g, q + r[1..])
  {
    var w := q + r[1..];
    forall i | 0 <= i < |w| - 1 ensures w[i + 1] in Succ(g, w[i]) {
      if i < |q| - 1 {
        assert w[i] == q[i] && w[i + 1] == q[i + 1];
      } else {
        assert w[i] == r[i - |q| + 1] && w[i + 1] == r[i - |q| + 2];
      }
    }
  }

  lemma FirstOccurrence(p: seq<Path>, x: Path)
    requires |p| > 0 && p[|p| - 1] == x && p[0] != x
    ensures exists j :: 0 < j < |p| && p[j] == x && forall i :: 0 <= i < j ==> p[i] != x
  {
    var j := 0;
    while p[j] != x
      invariant 0 <= j < |p|
      invariant forall i :: 0 <= i < j ==> p[i] != x
      decreases |p| - j
    {
      j := j + 1;
    }
  }
}
