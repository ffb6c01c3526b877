/** `find_cycles` of fastdeps/graph.py: Tarjan's algorithm, with the state the
    Python closure shares (`index`, `indices`, `lowlinks`, `stack`,
    `on_stack`, `cycles`) passed explicitly through the recursion. */
module Tarjan {
  import opened Paths
  import opened Graphs
  import opened Reach
  import opened Cycles
  import opened TarjanInv

  lemma SuccInUniverse(g: DependencyGraph, x: Path)
    ensures Succ(g, x) <= Universe(g)
  {
  }

  lemma ReversalMembers(c: seq<Path>, s: seq<Path>)
    requires IsReversal(c, s)
    ensures forall x :: x in c <==> x in s
  {
    forall x ensures x in c <==> x in s {
      if x in c {
        var i :| 0 <= i < |c| && c[i] == x;
        assert s[|s| - 1 - i] == x;
      }
      if x in s {
        var i :| 0 <= i < |s| && s[i] == x;
        assert c[|s| - 1 - i] == x;
      }
    }
  }

  // ----- Termination -----

  lemma SubsetSize(a: set<Path>, b: set<Path>)
    requires a <= b
    ensures |a| <= |b|
  {
    assert b == a + (b - a);
  }

  lemma MeasureDrops(u: set<Path>, a: set<Path>, b: set<Path>, v: Path)
    requires a <= b && v in u && v !in a && v in b
    ensures |u - b| < |u - a|
  {
    assert u - b <= (u - a) - {v};
    assert u - a == ((u - a) - {v}) + {v};
    SubsetSize(u - b, (u - a) - {v});
  }

  // ----- Facts about states -----

  lemma ExtendsTrans(s: TarjanState, t: TarjanState, u: TarjanState)
    requires Extends(s, t) && Extends(t, u)
    ensures Extends(s, u)
  {
    assert u.stack[..|s.stack|] == u.stack[..|t.stack|][..|s.stack|];
  }

  /** A stack file whose index is at most that of the file at position `p`
      sits at or below `p`. */
  lemma BelowInStack(s: TarjanState, w: Path, p: nat) returns (k: nat)
    requires StackWf(s) && w in s.onStack && p < |s.stack|
    requires s.indices[w] <= s.indices[s.stack[p]]
    ensures k <= p && k < |s.stack| && s.stack[k] == w
  {
    k :| 0 <= k < |s.stack| && s.stack[k] == w;
  }

  /** Changing the lowlink of a visited file keeps the invariant, which
      depends only on which files have lowlinks. */
  lemma SetLowlinkInv(g: DependencyGraph, t: TarjanState, grays: seq<Path>, v: Path, n: nat)
    requires Inv(g, t, grays) && v in t.lowlinks
    ensures Inv(g, t.(lowlinks := t.lowlinks[v := n]), grays)
  {
    var t2 := t.(lowlinks := t.lowlinks[v := n]);
    assert t2.lowlinks.Keys == t.lowlinks.Keys;
    assert Done(t2) == Done(t);
  }

  lemma SetLowlinkExtends(s: TarjanState, t: TarjanState, v: Path, n: nat)
    requires Extends(s, t) && v !in s.lowlinks
    ensures Extends(s, t.(lowlinks := t.lowlinks[v := n]))
  {
  }

  // ----- Entering strongconnect(v) -----

  lemma PushStackWf(s: TarjanState, v: Path)
    requires StackWf(s) && v !in s.indices
    ensures StackWf(Push(s, v))
  {
    var t := Push(s, v);
    forall i, j | 0 <= i < j < |t.stack| ensures t.indices[t.stack[i]] < t.indices[t.stack[j]] {
      assert t.stack[i] == s.stack[i];
      if j < |s.stack| {
        assert t.stack[j] == s.stack[j];
      }
    }
    forall x ensures x in t.onStack <==> x in t.stack {
      assert x in t.stack <==> x in s.stack || x == v;
    }
    forall i | 0 <= i < |t.stack| ensures t.stack[i] in t.indices {
      if i < |s.stack| {
        assert t.stack[i] == s.stack[i];
      }
    }
    assert t.lowlinks.Keys == t.indices.Keys;
  }

  lemma PushGrays(g: DependencyGraph, s: TarjanState, v: Path, grays: seq<Path>)
    requires StackWf(s) && GraysReached(g, s, grays) && v !in s.indices
    ensures GraysReached(g, Push(s, v), grays + [v])
  {
    var t := Push(s, v);
    forall y | y in t.onStack && y in t.indices
      ensures exists a :: a in grays + [v] && a in t.indices && t.indices[a] <= t.indices[y] && Reaches(g, y, a)
    {
      if y == v {
        ReachesRefl(g, v);
        assert v in grays + [v];
      } else {
        var a :| a in grays && a in s.indices && s.indices[a] <= s.indices[y] && Reaches(g, y, a);
        assert a in grays + [v];
      }
    }
  }

  lemma PushDoneOk(g: DependencyGraph, s: TarjanState, v: Path)
    requires StackWf(s) && DoneOk(g, s) && v !in s.indices
    ensures DoneOk(g, Push(s, v))
  {
    assert Done(Push(s, v)) == Done(s);
  }

  lemma PushActive(g: DependencyGraph, s: TarjanState, v: Path)
    requires StackWf(s) && v !in s.indices
    ensures Extends(s, Push(s, v))
    ensures Active(g, s, Push(s, v), v)
    ensures EdgesBounded(g, Push(s, v).stack, Push(s, v).onStack, Push(s, v).indices, |s.stack| + 1, s.index)
  {
    var t := Push(s, v);
    ReachesRefl(g, v);
    assert t.stack[|s.stack|] == v;
    assert t.stack[..|s.stack|] == s.stack;
    assert Witnessed(g, t.onStack, t.indices, v, s.index);
  }

  /** Entering `strongconnect(v)`: `v` is numbered and pushed. */
  lemma PushEstablishes(g: DependencyGraph, s: TarjanState, v: Path, grays: seq<Path>)
    requires Inv(g, s, grays) && v !in s.indices
    requires forall a :: a in grays ==> Reaches(g, a, v)
    ensures LoopInv(g, s, Push(s, v), v, grays, {})
  {
    PushStackWf(s, v);
    PushGrays(g, s, v, grays);
    PushDoneOk(g, s, v);
    PushActive(g, s, v);
  }

  // ----- One import of v -----

  /** After `strongconnect(c)` for an unvisited import `c`, the lower of the
      two lowlinks is witnessed. */
  lemma ChildWitness(g: DependencyGraph, s: TarjanState, t: TarjanState, t1: TarjanState, v: Path, c: Path)
    requires StackWf(t) && StackWf(t1) && Extends(t, t1)
    requires Active(g, s, t, v) && c in Succ(g, v) && c !in t.indices
    requires c in t1.indices && t1.indices[c] == t.index && c in t1.lowlinks
    requires c in t1.onStack ==> Active(g, t, t1, c)
    requires c !in t1.onStack ==> t1.lowlinks[c] == t1.indices[c]
    ensures Witnessed(g, t1.onStack, t1.indices, v, Min(t.lowlinks[v], t1.lowlinks[c]))
  {
    if t.lowlinks[v] <= t1.lowlinks[c] {
      var w :| w in t.onStack && w in t.indices && t.indices[w] == t.lowlinks[v] && Reaches(g, v, w);
      var k := BelowInStack(t, w, |s.stack|);
      assert t1.stack[..|t.stack|] == t.stack;
      assert t1.stack[k] == w;
    } else {
      assert c in t1.onStack;
      var w :| w in t1.onStack && w in t1.indices && t1.indices[w] == t1.lowlinks[c] && Reaches(g, c, w);
      ReachesEdge(g, v, c);
      ReachesTrans(g, v, c, w);
    }
  }

  lemma ChildReachesAbove(g: DependencyGraph, s: TarjanState, t: TarjanState, t1: TarjanState, v: Path, c: Path)
    requires Extends(t, t1) && ReachesAbove(g, t.stack, v, |s.stack|) && c in Succ(g, v)
    requires c in t1.onStack ==> ReachesAbove(g, t1.stack, c, |t.stack|)
    requires c !in t1.onStack ==> t1.stack == t.stack
    ensures ReachesAbove(g, t1.stack, v, |s.stack|)
  {
    assert t1.stack[..|t.stack|] == t.stack;
    forall i | |s.stack| <= i < |t1.stack| ensures Reaches(g, v, t1.stack[i]) {
      if i < |t.stack| {
        assert t1.stack[i] == t.stack[i];
      } else {
        ReachesEdge(g, v, c);
        ReachesTrans(g, v, c, t1.stack[i]);
      }
    }
  }

  lemma ChildBounds(g: DependencyGraph, s: TarjanState, t: TarjanState, t1: TarjanState, v: Path,
                    examined: set<Path>, c: Path, low: nat)
    requires Extends(t, t1) && |s.stack| <= |t.stack|
    requires v in t.lowlinks && c in t1.indices && c in t1.lowlinks
    requires EdgesBounded(g, t.stack, t.onStack, t.indices, |s.stack| + 1, t.lowlinks[v]) && ExaminedBounded(t.onStack, t.indices, examined, t.lowlinks[v])
    requires low <= t.lowlinks[v] && low <= t1.lowlinks[c]
    requires c in t1.onStack ==> EdgesBounded(g, t1.stack, t1.onStack, t1.indices, |t.stack|, t1.lowlinks[c]) && t1.lowlinks[c] <= t1.indices[c]
    requires c !in t1.onStack ==> t1.stack == t.stack
    ensures EdgesBounded(g, t1.stack, t1.onStack, t1.indices, |s.stack| + 1, low) && ExaminedBounded(t1.onStack, t1.indices, examined + {c}, low)
  {
    assert t1.stack[..|t.stack|] == t.stack;
    forall i, y | |s.stack| + 1 <= i < |t1.stack| && y in Succ(g, t1.stack[i])
      ensures y in t1.indices && (y in t1.onStack ==> low <= t1.indices[y])
    {
      if i < |t.stack| {
        assert t1.stack[i] == t.stack[i];
      }
    }
  }

  /** The import `c` of `v` was unvisited: after `strongconnect(c)` returns in
      state `t1`, `v` takes the lower of the two lowlinks. */
  lemma ChildStep(g: DependencyGraph, s: TarjanState, t: TarjanState, v: Path, grays: seq<Path>,
                  examined: set<Path>, c: Path, t1: TarjanState)
    requires LoopInv(g, s, t, v, grays, examined)
    requires c in Succ(g, v) && c !in t.indices
    requires Inv(g, t1, grays + [v]) && Extends(t, t1)
    requires c in t1.indices && t1.indices[c] == t.index && c in t1.lowlinks
    requires c in t1.onStack ==>
      (Active(g, t, t1, c) && t1.lowlinks[c] < t1.indices[c]
       && EdgesBounded(g, t1.stack, t1.onStack, t1.indices, |t.stack|, t1.lowlinks[c]))
    requires c !in t1.onStack ==> t1.stack == t.stack && t1.lowlinks[c] == t1.indices[c]
    ensures LoopInv(g, s, t1.(lowlinks := t1.lowlinks[v := Min(t1.lowlinks[v], t1.lowlinks[c])]),
                    v, grays, examined + {c})
  {
    var low := Min(t1.lowlinks[v], t1.lowlinks[c]);
    ExtendsTrans(s, t, t1);
    SetLowlinkInv(g, t1, grays + [v], v, low);
    SetLowlinkExtends(s, t1, v, low);
    ChildFrame(g, s, t, t1, v, examined, c);
  }

  /** The frame of `v` after the call for its import `c`. */
  lemma ChildFrame(g: DependencyGraph, s: TarjanState, t: TarjanState, t1: TarjanState, v: Path,
                   examined: set<Path>, c: Path)
    requires StackWf(t) && StackWf(t1) && Extends(t, t1)
    requires Active(g, s, t, v) && c in Succ(g, v) && c !in t.indices
    requires EdgesBounded(g, t.stack, t.onStack, t.indices, |s.stack| + 1, t.lowlinks[v])
    requires ExaminedBounded(t.onStack, t.indices, examined, t.lowlinks[v])
    requires c in t1.indices && t1.indices[c] == t.index && c in t1.lowlinks
    requires c in t1.onStack ==>
      (Active(g, t, t1, c) && t1.lowlinks[c] < t1.indices[c]
       && EdgesBounded(g, t1.stack, t1.onStack, t1.indices, |t.stack|, t1.lowlinks[c]))
    requires c !in t1.onStack ==> t1.stack == t.stack && t1.lowlinks[c] == t1.indices[c]
    ensures v in t1.lowlinks
    ensures Active(g, s, t1.(lowlinks := t1.lowlinks[v := Min(t1.lowlinks[v], t1.lowlinks[c])]), v)
    ensures EdgesBounded(g, t1.stack, t1.onStack, t1.indices, |s.stack| + 1, Min(t1.lowlinks[v], t1.lowlinks[c]))
    ensures ExaminedBounded(t1.onStack, t1.indices, examined + {c}, Min(t1.lowlinks[v], t1.lowlinks[c]))
  {
    var low := Min(t1.lowlinks[v], t1.lowlinks[c]);
    assert t1.lowlinks[v] == t.lowlinks[v];
    ChildWitness(g, s, t, t1, v, c);
    ChildReachesAbove(g, s, t, t1, v, c);
    ChildBounds(g, s, t, t1, v, examined, c, low);
    assert t1.stack[..|t.stack|] == t.stack;
  }

  /** The import `c` of `v` is on the stack: `v`'s lowlink drops to at most
      the index of `c`. */
  lemma OnStackStep(g: DependencyGraph, s: TarjanState, t: TarjanState, v: Path, grays: seq<Path>,
                    examined: set<Path>, c: Path)
    requires LoopInv(g, s, t, v, grays, examined)
    requires c in Succ(g, v) && c in t.indices && c in t.onStack
    ensures LoopInv(g, s, t.(lowlinks := t.lowlinks[v := Min(t.lowlinks[v], t.indices[c])]),
                    v, grays, examined + {c})
  {
    var low := Min(t.lowlinks[v], t.indices[c]);
    SetLowlinkInv(g, t, grays + [v], v, low);
    SetLowlinkExtends(s, t, v, low);
    OnStackFrame(g, s, t, v, examined, c);
  }

  lemma OnStackFrame(g: DependencyGraph, s: TarjanState, t: TarjanState, v: Path, examined: set<Path>, c: Path)
    requires Active(g, s, t, v) && c in Succ(g, v) && c in t.indices && c in t.onStack
    requires EdgesBounded(g, t.stack, t.onStack, t.indices, |s.stack| + 1, t.lowlinks[v])
    requires ExaminedBounded(t.onStack, t.indices, examined, t.lowlinks[v])
    ensures Active(g, s, t.(lowlinks := t.lowlinks[v := Min(t.lowlinks[v], t.indices[c])]), v)
    ensures EdgesBounded(g, t.stack, t.onStack, t.indices, |s.stack| + 1, Min(t.lowlinks[v], t.indices[c]))
    ensures ExaminedBounded(t.onStack, t.indices, examined + {c}, Min(t.lowlinks[v], t.indices[c]))
  {
    ReachesEdge(g, v, c);
    assert Witnessed(g, t.onStack, t.indices, v, Min(t.lowlinks[v], t.indices[c]));
  }

  /** The import `c` of `v` belongs to a popped component: nothing changes. */
  lemma DoneStep(g: DependencyGraph, s: TarjanState, t: TarjanState, v: Path, grays: seq<Path>,
                 examined: set<Path>, c: Path)
    requires LoopInv(g, s, t, v, grays, examined)
    requires c in t.indices && c !in t.onStack
    ensures LoopInv(g, s, t, v, grays, examined + {c})
  {
  }

  /** Once every import has been examined the invariant speaks of all of them. */
  lemma LoopDone(g: DependencyGraph, s: TarjanState, t: TarjanState, v: Path, grays: seq<Path>, examined: set<Path>)
    requires LoopInv(g, s, t, v, grays, examined) && examined == Succ(g, v)
    ensures LoopInv(g, s, t, v, grays, Succ(g, v))
  {
  }

  /** Moving one element from `todo` to `examined` keeps them splitting `all`. */
  lemma TakeOne<T>(all: set<T>, examined: set<T>, todo: set<T>, x: T)
    requires todo <= all && examined == all - todo && x in todo
    ensures todo - {x} <= all && examined + {x} == all - (todo - {x}) && |todo - {x}| < |todo|
  {
  }

  /** The loop over the imports of `v` (graph.py:68-76), written as a tail
      recursion over the imports not yet examined, `todo`, taken in an
      arbitrary order as Python iterates a set. */
  method VisitImports(g: DependencyGraph, s: TarjanState, t: TarjanState, v: Path, ghost grays: seq<Path>,
                      ghost examined: set<Path>, todo: set<Path>)
    returns (t2: TarjanState)
    requires todo <= Succ(g, v) && examined == Succ(g, v) - todo
    requires LoopInv(g, s, t, v, grays, examined)
    ensures LoopInv(g, s, t2, v, grays, Succ(g, v))
    decreases |Universe(g) - s.indices.Keys|, 2, |todo|
  {
    if todo == {} {
      LoopDone(g, s, t, v, grays, examined);
      return t;
    }
    var neighbor :| neighbor in todo;
    TakeOne(Succ(g, v), examined, todo, neighbor);
    var t1 := VisitOne(g, s, t, v, grays, examined, neighbor);
    t2 := VisitImports(g, s, t1, v, grays, examined + {neighbor}, todo - {neighbor});
  }

  /** One pass of the loop over the imports of `v`: an unvisited import is
      explored, one on the stack lowers `v`'s lowlink to its index, and one
      already popped is skipped. */
  method VisitOne(g: DependencyGraph, s: TarjanState, t: TarjanState, v: Path, ghost grays: seq<Path>,
                  ghost examined: set<Path>, neighbor: Path)
    returns (t2: TarjanState)
    requires LoopInv(g, s, t, v, grays, examined) && neighbor in Succ(g, v)
    ensures LoopInv(g, s, t2, v, grays, examined + {neighbor})
    decreases |Universe(g) - s.indices.Keys|, 1
  {
    if neighbor !in t.indices {
      t2 := VisitChild(g, s, t, v, grays, examined, neighbor);
    } else if neighbor in t.onStack {
      OnStackStep(g, s, t, v, grays, examined, neighbor);
      t2 := t.(lowlinks := t.lowlinks[v := Min(t.lowlinks[v], t.indices[neighbor])]);
    } else {
      DoneStep(g, s, t, v, grays, examined, neighbor);
      t2 := t;
    }
  }

  /** An unvisited import `c` of `v`: `strongconnect(c)`, then `v` takes
      the lower of the two lowlinks. */
  method VisitChild(g: DependencyGraph, s: TarjanState, t: TarjanState, v: Path, ghost grays: seq<Path>,
                    ghost examined: set<Path>, c: Path)
    returns (t2: TarjanState)
    requires LoopInv(g, s, t, v, grays, examined) && c in Succ(g, v) && c !in t.indices
    ensures LoopInv(g, s, t2, v, grays, examined + {c})
    decreases |Universe(g) - s.indices.Keys|, 0
  {
    SuccInUniverse(g, v);
    MeasureDrops(Universe(g), s.indices.Keys, t.indices.Keys, v);
    forall a | a in grays + [v] ensures Reaches(g, a, c) {
      ReachesEdge(g, v, c);
      if a != v {
        ReachesTrans(g, a, v, c);
      }
    }
    var t1 := StrongConnect(g, c, t, grays + [v]);
    ChildStep(g, s, t, v, grays, examined, c, t1);
    t2 := t1.(lowlinks := t1.lowlinks[v := Min(t1.lowlinks[v], t1.lowlinks[c])]);
  }

  /** `strongconnect(v)`. */
  method StrongConnect(g: DependencyGraph, v: Path, s: TarjanState, ghost grays: seq<Path>)
    returns (t: TarjanState)
    requires Inv(g, s, grays) && v !in s.indices
    requires forall a :: a in grays ==> Reaches(g, a, v)
    ensures Inv(g, t, grays) && Extends(s, t)
    ensures v in t.indices && t.indices[v] == s.index && v in t.lowlinks
    ensures v in t.onStack ==>
      (Active(g, s, t, v) && t.lowlinks[v] < t.indices[v]
       && EdgesBounded(g, t.stack, t.onStack, t.indices, |s.stack|, t.lowlinks[v]))
    ensures v !in t.onStack ==> t.stack == s.stack && t.lowlinks[v] == t.indices[v]
    decreases |Universe(g) - s.indices.Keys|, 3
  {
    PushEstablishes(g, s, v, grays);
    t := VisitImports(g, s, Push(s, v), v, grays, {}, Succ(g, v));
    if t.lowlinks[v] == t.indices[v] {
      t := PopComponent(g, s, t, v, grays);
    } else {
      StaysOnStack(g, s, t, v, grays);
    }
  }

  // ----- Leaving strongconnect(v) without popping -----

  lemma JoinBounds(g: DependencyGraph, s: TarjanState, t: TarjanState, v: Path, low: nat)
    requires |t.stack| > |s.stack| && t.stack[|s.stack|] == v
    requires EdgesBounded(g, t.stack, t.onStack, t.indices, |s.stack| + 1, low) && ExaminedBounded(t.onStack, t.indices, Succ(g, v), low)
    ensures EdgesBounded(g, t.stack, t.onStack, t.indices, |s.stack|, low)
  {
  }

  lemma StaysGrays(g: DependencyGraph, t: TarjanState, v: Path, grays: seq<Path>)
    requires StackWf(t) && GraysReached(g, t, grays + [v]) && v in t.indices && v in t.lowlinks
    requires Witnessed(g, t.onStack, t.indices, v, t.lowlinks[v]) && t.lowlinks[v] < t.indices[v]
    ensures GraysReached(g, t, grays)
  {
    var w :| w in t.onStack && w in t.indices && t.indices[w] == t.lowlinks[v] && Reaches(g, v, w);
    var aw :| aw in grays + [v] && aw in t.indices && t.indices[aw] <= t.indices[w] && Reaches(g, w, aw);
    assert aw in grays;
    forall y | y in t.onStack && y in t.indices
      ensures exists a :: a in grays && a in t.indices && t.indices[a] <= t.indices[y] && Reaches(g, y, a)
    {
      StaysGraysOne(g, t, v, grays, w, aw, y);
    }
  }

  lemma StaysGraysOne(g: DependencyGraph, t: TarjanState, v: Path, grays: seq<Path>, w: Path, aw: Path, y: Path)
    requires GraysReached(g, t, grays + [v]) && v in t.indices && y in t.onStack && y in t.indices
    requires w in t.indices && Reaches(g, v, w) && t.indices[w] < t.indices[v]
    requires aw in grays && aw in t.indices && t.indices[aw] <= t.indices[w] && Reaches(g, w, aw)
    ensures exists a :: a in grays && a in t.indices && t.indices[a] <= t.indices[y] && Reaches(g, y, a)
  {
    var a :| a in grays + [v] && a in t.indices && t.indices[a] <= t.indices[y] && Reaches(g, y, a);
    if a == v {
      ReachesTrans(g, y, v, w);
      ReachesTrans(g, y, w, aw);
      assert aw in grays && aw in t.indices && t.indices[aw] <= t.indices[y] && Reaches(g, y, aw);
    } else {
      assert a in grays;
    }
  }

  /** `v` is not the root of its component: it stays on the stack, and the
      files that relied on `v` to reach a running call now reach one through
      `v`'s lowlink. */
  lemma StaysOnStack(g: DependencyGraph, s: TarjanState, t: TarjanState, v: Path, grays: seq<Path>)
    requires LoopInv(g, s, t, v, grays, Succ(g, v)) && t.lowlinks[v] != t.indices[v]
    ensures Inv(g, t, grays) && Extends(s, t)
    ensures Active(g, s, t, v) && t.lowlinks[v] < t.indices[v]
    ensures EdgesBounded(g, t.stack, t.onStack, t.indices, |s.stack|, t.lowlinks[v])
  {
    StaysGrays(g, t, v, grays);
    JoinBounds(g, s, t, v, t.lowlinks[v]);
  }

  // ----- Popping the component of v -----

  /** The stack splits into the entry stack and the suffix, which share no
      file; the entry stack files have indices below that of `v`. */
  lemma SplitStack(s: TarjanState, t: TarjanState, v: Path)
    requires StackWf(t) && |s.stack| < |t.stack| && t.stack[..|s.stack|] == s.stack && t.stack[|s.stack|] == v
    ensures forall x :: x in t.onStack <==> x in s.stack || x in Suffix(s, t)
    ensures forall x :: x in Suffix(s, t) ==> x in t.indices && t.indices[v] <= t.indices[x]
    ensures forall x :: x in s.stack ==> x in t.indices && t.indices[x] < t.indices[v]
  {
    var suffix := Suffix(s, t);
    forall x | x in t.onStack ensures x in s.stack || x in suffix {
      var k :| 0 <= k < |t.stack| && t.stack[k] == x;
      if k < |s.stack| {
        assert s.stack[k] == x;
      } else {
        assert suffix[k - |s.stack|] == x;
      }
    }
    forall x | x in suffix ensures x in t.indices && t.indices[v] <= t.indices[x] {
      var i :| 0 <= i < |suffix| && suffix[i] == x;
      assert t.stack[|s.stack| + i] == x;
    }
    forall x | x in s.stack ensures x in t.indices && t.indices[x] < t.indices[v] {
      var k :| 0 <= k < |s.stack| && s.stack[k] == x;
      assert t.stack[k] == x;
    }
  }

  /** The popped files are pairwise mutually reachable. */
  lemma SuffixMutual(g: DependencyGraph, s: TarjanState, t: TarjanState, v: Path, grays: seq<Path>, x: Path, y: Path)
    requires |s.stack| < |t.stack| && ReachesAbove(g, t.stack, v, |s.stack|)
    requires GraysReached(g, t, grays + [v]) && (forall a :: a in grays ==> Reaches(g, a, v))
    requires forall x :: x in Suffix(s, t) ==> x in t.onStack && x in t.indices
    requires x in Suffix(s, t) && y in Suffix(s, t)
    ensures Reaches(g, x, y)
  {
    var suffix := Suffix(s, t);
    var j :| 0 <= j < |suffix| && suffix[j] == y;
    assert t.stack[|s.stack| + j] == y;
    var a :| a in grays + [v] && a in t.indices && t.indices[a] <= t.indices[x] && Reaches(g, x, a);
    if a != v {
      ReachesTrans(g, x, a, v);
    }
    ReachesTrans(g, x, v, y);
  }

  /** With `v`'s lowlink equal to its index, no edge leaves the popped files
      together with the suffix. */
  lemma SuffixClosed(g: DependencyGraph, s: TarjanState, t: TarjanState, v: Path, done: set<Path>)
    requires StackWf(t) && |s.stack| < |t.stack| && t.stack[..|s.stack|] == s.stack && t.stack[|s.stack|] == v
    requires Closed(g, Done(t)) && EdgesBounded(g, t.stack, t.onStack, t.indices, |s.stack|, t.indices[v])
    requires done == Done(t) + Members(Suffix(s, t))
    ensures Closed(g, done)
  {
    SplitStack(s, t, v);
    var suffix := Suffix(s, t);
    forall x, y | x in done && y in Succ(g, x) ensures y in done {
      if x in suffix {
        var i :| 0 <= i < |suffix| && suffix[i] == x;
        assert t.stack[|s.stack| + i] == x;
      }
    }
  }

  /** The popped files form a whole component: anything mutually reachable
      with one of them is among them. */
  lemma SuffixMaximal(g: DependencyGraph, s: TarjanState, t: TarjanState, done: set<Path>, x: Path, z: Path)
    requires |s.stack| <= |t.stack|
    requires Closed(g, Done(t)) && Closed(g, done) && done == Done(t) + Members(Suffix(s, t))
    requires forall x :: x in Suffix(s, t) ==> x !in Done(t)
    requires x in Suffix(s, t) && Mutual(g, x, z)
    ensures z in Suffix(s, t)
  {
    ClosedReaches(g, done, x, z);
    if z !in Suffix(s, t) {
      ClosedReaches(g, Done(t), z, x);
      assert false;
    }
  }

  /** The facts about the suffix that the pop relies on. */
  lemma PopFacts(g: DependencyGraph, s: TarjanState, t: TarjanState, v: Path, grays: seq<Path>)
    requires LoopInv(g, s, t, v, grays, Succ(g, v)) && t.lowlinks[v] == t.indices[v]
    ensures forall x :: x in t.onStack <==> x in s.stack || x in Suffix(s, t)
    ensures forall x :: x in Suffix(s, t) ==> x in t.onStack && x in t.indices && x !in Done(t)
    ensures forall x :: x in s.stack ==> x !in Suffix(s, t)
    ensures Closed(g, Done(t)) && Closed(g, Done(t) + Members(Suffix(s, t)))
    ensures forall x, y :: x in Suffix(s, t) && y in Suffix(s, t) ==> Reaches(g, x, y)
    ensures forall x, z :: x in Suffix(s, t) && Mutual(g, x, z) ==> z in Suffix(s, t)
  {
    assert t.stack[..|s.stack|] == s.stack;
    SplitStack(s, t, v);
    JoinBounds(g, s, t, v, t.lowlinks[v]);
    var done := Done(t) + Members(Suffix(s, t));
    SuffixClosed(g, s, t, v, done);
    forall x, y | x in Suffix(s, t) && y in Suffix(s, t) ensures Reaches(g, x, y) {
      SuffixMutual(g, s, t, v, grays, x, y);
    }
    forall x, z | x in Suffix(s, t) && Mutual(g, x, z) ensures z in Suffix(s, t) {
      SuffixMaximal(g, s, t, done, x, z);
    }
  }

  lemma PopStackWf(s: TarjanState, t: TarjanState, cycles: seq<seq<Path>>)
    requires StackWf(t) && |s.stack| <= |t.stack| && t.stack[..|s.stack|] == s.stack
    requires forall x :: x in t.onStack <==> x in s.stack || x in Suffix(s, t)
    requires forall x :: x in s.stack ==> x !in Suffix(s, t)
    ensures StackWf(Popped(s, t, cycles))
  {
    var u := Popped(s, t, cycles);
    assert forall i :: 0 <= i < |u.stack| ==> u.stack[i] == t.stack[i];
  }

  lemma PopGrays(g: DependencyGraph, s: TarjanState, t: TarjanState, v: Path, grays: seq<Path>,
                 cycles: seq<seq<Path>>)
    requires StackWf(t) && GraysReached(g, t, grays + [v])
    requires |s.stack| < |t.stack| && t.stack[..|s.stack|] == s.stack && t.stack[|s.stack|] == v
    requires StackWf(Popped(s, t, cycles))
    ensures GraysReached(g, Popped(s, t, cycles), grays)
  {
    SplitStack(s, t, v);
    var u := Popped(s, t, cycles);
    forall y | y in u.onStack && y in u.indices
      ensures exists a :: a in grays && a in u.indices && u.indices[a] <= u.indices[y] && Reaches(g, y, a)
    {
      var a :| a in grays + [v] && a in t.indices && t.indices[a] <= t.indices[y] && Reaches(g, y, a);
    }
  }

  /** The cycle list after the pop satisfies the invariant: the component is
      appended exactly when it has two or more files. */
  lemma PopCycles(g: DependencyGraph, s: TarjanState, t: TarjanState, component: seq<Path>,
                  cycles: seq<seq<Path>>, done: set<Path>)
    requires |s.stack| <= |t.stack| && IsReversal(component, Suffix(s, t))
    requires CyclesSound(g, Done(t), t.cycles) && CyclesComplete(g, Done(t), t.cycles)
    requires done == Done(t) + Members(Suffix(s, t))
    requires forall x :: x in Suffix(s, t) ==> x !in Done(t)
    requires forall x, y :: x in Suffix(s, t) && y in Suffix(s, t) ==> Reaches(g, x, y)
    requires forall x, z :: x in Suffix(s, t) && Mutual(g, x, z) ==> z in Suffix(s, t)
    requires forall i, j :: 0 <= i < j < |Suffix(s, t)| ==> Suffix(s, t)[i] != Suffix(s, t)[j]
    requires cycles == if |component| > 1 then t.cycles + [component] else t.cycles
    ensures CyclesSound(g, done, cycles) && CyclesComplete(g, done, cycles)
  {
    var suffix := Suffix(s, t);
    ReversalMembers(component, suffix);
    if |component| > 1 {
      var n := |t.cycles|;
      assert cycles[n] == component;
      forall k, l | 0 <= k < l < |component| ensures component[k] != component[l] {
        assert suffix[|suffix| - 1 - l] != suffix[|suffix| - 1 - k];
      }
    }
    forall x, z | x in done && z != x && Mutual(g, x, z)
      ensures exists i :: 0 <= i < |cycles| && x in cycles[i]
    {
      if x !in Done(t) {
        TwoMembers(suffix, x, z);
        assert cycles[|t.cycles|] == component;
      } else {
        var i :| 0 <= i < |t.cycles| && x in t.cycles[i];
        assert cycles[i] == t.cycles[i];
      }
    }
  }

  lemma TwoMembers(q: seq<Path>, x: Path, z: Path)
    requires x in q && z in q && x != z
    ensures |q| >= 2
  {
    var i :| 0 <= i < |q| && q[i] == x;
    var j :| 0 <= j < |q| && q[j] == z;
    assert i != j;
  }

  /** Popping the component of `v` re-establishes the invariant for the
      caller. */
  lemma PopEstablishes(g: DependencyGraph, s: TarjanState, t: TarjanState, v: Path, grays: seq<Path>,
                       component: seq<Path>, cycles: seq<seq<Path>>)
    requires LoopInv(g, s, t, v, grays, Succ(g, v)) && t.lowlinks[v] == t.indices[v]
    requires IsReversal(component, Suffix(s, t))
    requires cycles == if |component| > 1 then t.cycles + [component] else t.cycles
    ensures Inv(g, Popped(s, t, cycles), grays) && Extends(s, Popped(s, t, cycles))
    ensures v !in Popped(s, t, cycles).onStack
  {
    PopStackPart(g, s, t, v, grays, cycles);
    PopExtends(g, s, t, v, grays, cycles);
    PopDonePart(g, s, t, v, grays, component, cycles);
  }

  lemma PopStackPart(g: DependencyGraph, s: TarjanState, t: TarjanState, v: Path, grays: seq<Path>,
                     cycles: seq<seq<Path>>)
    requires LoopInv(g, s, t, v, grays, Succ(g, v)) && t.lowlinks[v] == t.indices[v]
    ensures StackWf(Popped(s, t, cycles)) && GraysReached(g, Popped(s, t, cycles), grays)
  {
    PopFacts(g, s, t, v, grays);
    assert t.stack[..|s.stack|] == s.stack;
    PopStackWf(s, t, cycles);
    PopGrays(g, s, t, v, grays, cycles);
  }

  lemma PopExtends(g: DependencyGraph, s: TarjanState, t: TarjanState, v: Path, grays: seq<Path>,
                   cycles: seq<seq<Path>>)
    requires LoopInv(g, s, t, v, grays, Succ(g, v)) && t.lowlinks[v] == t.indices[v]
    ensures Extends(s, Popped(s, t, cycles)) && v !in Popped(s, t, cycles).onStack
  {
    PopFacts(g, s, t, v, grays);
    assert v in Members(Suffix(s, t));
  }

  lemma PopDonePart(g: DependencyGraph, s: TarjanState, t: TarjanState, v: Path, grays: seq<Path>,
                    component: seq<Path>, cycles: seq<seq<Path>>)
    requires LoopInv(g, s, t, v, grays, Succ(g, v)) && t.lowlinks[v] == t.indices[v]
    requires IsReversal(component, Suffix(s, t))
    requires cycles == if |component| > 1 then t.cycles + [component] else t.cycles
    ensures DoneOk(g, Popped(s, t, cycles))
  {
    var u := Popped(s, t, cycles);
    PopFacts(g, s, t, v, grays);
    assert Done(u) == Done(t) + Members(Suffix(s, t));
    assert forall i, j :: 0 <= i < j < |Suffix(s, t)| ==> Suffix(s, t)[i] != Suffix(s, t)[j] by {
      forall i, j | 0 <= i < j < |Suffix(s, t)| ensures Suffix(s, t)[i] != Suffix(s, t)[j] {
        assert t.indices[t.stack[|s.stack| + i]] < t.indices[t.stack[|s.stack| + j]];
      }
    }
    PopCycles(g, s, t, component, cycles, Done(u));
  }

  /** The `while True` loop of `strongconnect`: files are popped off the
      stack and unmarked, in popping order, up to and including `v`, which
      sits at position `p` and nowhere above it. */
  method PopUntil(stack0: seq<Path>, onStack0: set<Path>, v: Path, ghost p: nat)
    returns (stack: seq<Path>, onStack: set<Path>, component: seq<Path>)
    requires p < |stack0| && stack0[p] == v
    requires forall i :: p < i < |stack0| ==> stack0[i] != v
    ensures stack == stack0[..p]
    ensures onStack == onStack0 - Members(stack0[p..])
    ensures IsReversal(component, stack0[p..])
  {
    stack := stack0;
    onStack := onStack0;
    component := [];
    var w := stack[|stack| - 1];
    stack := stack[..|stack| - 1];
    onStack := onStack - {w};
    component := component + [w];
    assert Members(stack0[|stack|..]) == {w};
    while w != v
      invariant p <= |stack| < |stack0|
      invariant stack == stack0[..|stack|]
      invariant w == stack0[|stack|]
      invariant IsReversal(component, stack0[|stack|..])
      invariant onStack == onStack0 - Members(stack0[|stack|..])
      decreases |stack|
    {
      ghost var n := |stack|;
      w := stack[|stack| - 1];
      stack := stack[..|stack| - 1];
      onStack := onStack - {w};
      component := component + [w];
      assert stack0[n - 1..] == [w] + stack0[n..];
      assert Members(stack0[n - 1..]) == Members(stack0[n..]) + {w};
    }
  }

  /** A file occurs once on a well-formed stack. */
  lemma OnceInStack(t: TarjanState, p: nat)
    requires StackWf(t) && p < |t.stack|
    ensures forall i :: p < i < |t.stack| ==> t.stack[i] != t.stack[p]
  {
    forall i | p < i < |t.stack| ensures t.stack[i] != t.stack[p] {
      assert t.indices[t.stack[p]] < t.indices[t.stack[i]];
    }
  }

  /** The pop of the component of `v`, followed by the report of components
      with more than one file that `_is_real_cycle` confirms. */
  method PopComponent(g: DependencyGraph, s: TarjanState, t: TarjanState, v: Path, ghost grays: seq<Path>)
    returns (u: TarjanState)
    requires LoopInv(g, s, t, v, grays, Succ(g, v)) && t.lowlinks[v] == t.indices[v]
    ensures Inv(g, u, grays) && Extends(s, u)
    ensures v in u.indices && u.indices[v] == s.index && v in u.lowlinks && v !in u.onStack
    ensures u.stack == s.stack && u.lowlinks[v] == u.indices[v]
  {
    OnceInStack(t, |s.stack|);
    var stack, onStack, component := PopUntil(t.stack, t.onStack, v, |s.stack|);
    var cycles := t.cycles;
    if |component| > 1 {
      var confirmed := IsRealCycle(g, component);
      ComponentReal(g, s, t, v, grays, component);
      if confirmed {
        cycles := cycles + [component];
      }
    }
    PopEstablishes(g, s, t, v, grays, component, cycles);
    u := t.(stack := stack, onStack := onStack, cycles := cycles);
    assert stack == s.stack;
    assert u == Popped(s, t, cycles);
  }

  /** The confirmation step cannot reject a popped component of two or more
      files. */
  lemma ComponentReal(g: DependencyGraph, s: TarjanState, t: TarjanState, v: Path, grays: seq<Path>,
                      component: seq<Path>)
    requires LoopInv(g, s, t, v, grays, Succ(g, v)) && t.lowlinks[v] == t.indices[v]
    requires IsReversal(component, Suffix(s, t)) && |component| > 1
    ensures exists k, u :: 0 <= k < |component| && ClosesCycle(g, Members(component), component[k], u)
  {
    var suffix := Suffix(s, t);
    PopFacts(g, s, t, v, grays);
    ReversalMembers(component, suffix);
    forall i, j | 0 <= i < |component| && 0 <= j < |component|
      ensures Reaches(g, component[i], component[j])
    {
      assert component[i] in suffix && component[j] in suffix;
    }
    assert component[1] != component[0] by {
      assert t.indices[t.stack[|s.stack| + |suffix| - 2]] < t.indices[t.stack[|s.stack| + |suffix| - 1]];
    }
    ComponentIsRealCycle(g, component, 1);
  }

  // ----- find_cycles -----

  /** What `find_cycles` promises: each reported cycle lists two or more
      files without repetition, all mutually reachable, and every file
      mutually reachable with one of them; no file is in two cycles; and
      every file that lies on a cycle with another file is reported. */
  ghost predicate IsCycleReport(g: DependencyGraph, cycles: seq<seq<Path>>) {
    && (forall i :: 0 <= i < |cycles| ==> |cycles[i]| >= 2)
    && (forall i, k, l :: 0 <= i < |cycles| && 0 <= k < l < |cycles[i]| ==> cycles[i][k] != cycles[i][l])
    && (forall i, x, y :: 0 <= i < |cycles| && x in cycles[i] && y in cycles[i] ==> Reaches(g, x, y))
    && (forall i, x, z :: 0 <= i < |cycles| && x in cycles[i] && Mutual(g, x, z) ==> z in cycles[i])
    && (forall i, j, x :: 0 <= i < j < |cycles| && x in cycles[i] ==> x !in cycles[j])
    && (forall x, z :: z != x && Mutual(g, x, z) ==> exists i :: 0 <= i < |cycles| && x in cycles[i])
  }

  /** A file that reaches a different file imports something, so it is a
      node of the graph. */
  lemma ReachesOtherIsNode(g: DependencyGraph, x: Path, z: Path)
    requires Reaches(g, x, z) && x != z
    ensures x in g.nodes.entries
  {
    var w :| IsWalk(g, w) && w[0] == x && w[|w| - 1] == z;
    assert w[1] in Succ(g, w[0]);
  }

  /** Once every node is visited and the stack is empty, the cycles found
      form a complete report. */
  lemma FinalReport(g: DependencyGraph, s: TarjanState)
    requires Inv(g, s, []) && forall k :: k in g.nodes.entries ==> k in s.indices
    ensures IsCycleReport(g, s.cycles)
  {
    // With no grey ancestors, nothing can be left on the stack.
    assert s.onStack == {};
    assert Done(s) == s.indices.Keys;
    forall x, z | z != x && Mutual(g, x, z) ensures exists i :: 0 <= i < |s.cycles| && x in s.cycles[i] {
      ReachesOtherIsNode(g, x, z);
    }
  }

  /** `find_cycles`: `strongconnect` from every node not yet visited, in the
      order the nodes were added. */
  method FindCycles(g: DependencyGraph) returns (cycles: seq<seq<Path>>)
    requires g.nodes.Valid()
    ensures IsCycleReport(g, cycles)
  {
    var s := TarjanState(0, map[], map[], [], {}, []);
    assert Done(s) == {};
    var keys := g.nodes.keys;
    for i := 0 to |keys|
      invariant Inv(g, s, [])
      invariant forall j :: 0 <= j < i ==> keys[j] in s.indices
    {
      var node := keys[i];
      if node !in s.indices {
        s := StrongConnect(g, node, s, []);
      }
    }
    assert forall k :: k in g.nodes.entries ==> k in s.indices by {
      forall k | k in g.nodes.entries ensures k in s.indices {
        assert k in (set k | k in keys);
        var j :| 0 <= j < |keys| && keys[j] == k;
      }
    }
    FinalReport(g, s);
    cycles := s.cycles;
  }

  /** A report is determined up to order: two reports for the same graph
      have the same cycles as sets of files. */
  lemma ReportUnique(g: DependencyGraph, c1: seq<seq<Path>>, c2: seq<seq<Path>>, i: nat)
    requires IsCycleReport(g, c1) && IsCycleReport(g, c2) && i < |c1|
    ensures exists j :: 0 <= j < |c2| && Members(c1[i]) == Members(c2[j])
  {
    var x := c1[i][0];
    var y := c1[i][1];
    assert Mutual(g, x, y);
    var j :| 0 <= j < |c2| && x in c2[j];
    forall z ensures z in c1[i] <==> z in c2[j] {
      if z in c1[i] {
        assert Mutual(g, x, z);
      }
      if z in c2[j] {
        assert Mutual(g, x, z);
      }
    }
  }

  /** The files a report lists are exactly the files that lie on a cycle
      with some other file. */
  lemma ReportCyclic(g: DependencyGraph, cycles: seq<seq<Path>>, x: Path)
    requires IsCycleReport(g, cycles)
    ensures (exists i :: 0 <= i < |cycles| && x in cycles[i]) <==> exists z :: z != x && Mutual(g, x, z)
  {
    if i :| 0 <= i < |cycles| && x in cycles[i] {
      var z := if cycles[i][0] == x then cycles[i][1] else cycles[i][0];
      assert z in cycles[i] && z != x;
      assert Mutual(g, x, z);
    }
  }

  /** A report's cycles are closed under mutual reachability. */
  lemma ReportMaximal(g: DependencyGraph, cycles: seq<seq<Path>>, i: nat, x: Path, z: Path)
    requires IsCycleReport(g, cycles) && i < |cycles| && x in cycles[i] && Mutual(g, x, z)
    ensures z in cycles[i]
  {
  }

  /** No file is in two cycles of a report. */
  lemma ReportDisjoint(g: DependencyGraph, cycles: seq<seq<Path>>, i: nat, j: nat, x: Path)
    requires IsCycleReport(g, cycles) && i < |cycles| && j < |cycles| && x in cycles[i] && x in cycles[j]
    ensures i == j
  {
  }
}
