/** The state of `find_cycles` in fastdeps/graph.py and the invariants its
    Tarjan traversal keeps. */
module TarjanInv {
  import opened Paths
  import opened Graphs
  import opened Reach
  import opened Cycles

  datatype TarjanState = TarjanState(
    index: nat,
    indices: map<Path, nat>,
    lowlinks: map<Path, nat>,
    stack: seq<Path>,
    onStack: set<Path>,
    cycles: seq<seq<Path>>)

  /** Every file a traversal can meet: the nodes and everything they import. */
  function Universe(g: DependencyGraph): set<Path> {
    g.nodes.entries.Keys + (set k, x | k in g.nodes.entries && x in g.nodes.entries[k].imports :: x)
  }

  function Min(a: nat, b: nat): nat {
    if a <= b then a else b
  }

  /** `c` lists the files of `s` from last to first. */
  ghost predicate IsReversal(c: seq<Path>, s: seq<Path>) {
    |c| == |s| && forall i :: 0 <= i < |c| ==> c[i] == s[|s| - 1 - i]
  }

  /** Files whose component has been popped: visited and off the stack. */
  ghost function Done(s: TarjanState): set<Path> {
    s.indices.Keys - s.onStack
  }

  /** The stack lists exactly the files marked on it, each visited, in
      increasing index order; indices are below the next index. */
  ghost predicate StackWf(s: TarjanState) {
    && (forall x :: x in s.onStack <==> x in s.stack)
    && (forall i :: 0 <= i < |s.stack| ==> s.stack[i] in s.indices)
    && s.lowlinks.Keys == s.indices.Keys
    && (forall x :: x in s.indices ==> s.indices[x] < s.index)
    && (forall i, j :: 0 <= i < j < |s.stack| ==> s.indices[s.stack[i]] < s.indices[s.stack[j]])
  }

  /** Every file on the stack reaches a file whose call is still running
      (one of `grays`) that was visited no later than itself. */
  ghost predicate GraysReached(g: DependencyGraph, s: TarjanState, grays: seq<Path>) {
    forall y :: y in s.onStack && y in s.indices ==>
      exists a :: a in grays && a in s.indices && s.indices[a] <= s.indices[y] && Reaches(g, y, a)
  }

  /** Each reported cycle: two or more popped files without repetition,
      pairwise mutually reachable, containing every file mutually reachable
      with its members; distinct cycles share no file. */
  ghost predicate CyclesSound(g: DependencyGraph, done: set<Path>, cycles: seq<seq<Path>>) {
    && (forall i :: 0 <= i < |cycles| ==> |cycles[i]| >= 2)
    && (forall i, k, l :: 0 <= i < |cycles| && 0 <= k < l < |cycles[i]| ==> cycles[i][k] != cycles[i][l])
    && (forall i, x :: 0 <= i < |cycles| && x in cycles[i] ==> x in done)
    && (forall i, x, y :: 0 <= i < |cycles| && x in cycles[i] && y in cycles[i] ==> Reaches(g, x, y))
    && (forall i, x, z :: 0 <= i < |cycles| && x in cycles[i] && Mutual(g, x, z) ==> z in cycles[i])
    && (forall i, j, x :: 0 <= i < j < |cycles| && x in cycles[i] ==> x !in cycles[j])
  }

  /** Every popped file that lies on a cycle with another file is reported. */
  ghost predicate CyclesComplete(g: DependencyGraph, done: set<Path>, cycles: seq<seq<Path>>) {
    forall x, z :: x in done && z != x && Mutual(g, x, z) ==>
      exists i :: 0 <= i < |cycles| && x in cycles[i]
  }

  /** What the popped files and the reported cycles satisfy at every step. */
  ghost predicate DoneOk(g: DependencyGraph, s: TarjanState) {
    && Closed(g, Done(s))
    && CyclesSound(g, Done(s), s.cycles)
    && CyclesComplete(g, Done(s), s.cycles)
  }

  ghost predicate Inv(g: DependencyGraph, s: TarjanState, grays: seq<Path>) {
    StackWf(s) && GraysReached(g, s, grays) && DoneOk(g, s)
  }

  /** `t` is a later state than `s`: earlier indices and lowlinks are kept,
      the earlier stack is a prefix of the later one and popped files stay
      popped. */
  ghost predicate Extends(s: TarjanState, t: TarjanState) {
    && (forall x :: x in s.indices ==> x in t.indices && t.indices[x] == s.indices[x])
    && (forall x :: x in s.lowlinks ==> x in t.lowlinks && t.lowlinks[x] == s.lowlinks[x])
    && s.index <= t.index
    && |s.stack| <= |t.stack| && t.stack[..|s.stack|] == s.stack
    && (forall x :: x in s.indices && x !in s.onStack ==> x !in t.onStack)
  }

  /** Some file on the stack with index `low` is reachable from `v`. */
  ghost predicate Witnessed(g: DependencyGraph, onStack: set<Path>, indices: map<Path, nat>, v: Path, low: nat) {
    exists w :: w in onStack && w in indices && indices[w] == low && Reaches(g, v, w)
  }

  /** `v` reaches every stack file from position `from` up. */
  ghost predicate ReachesAbove(g: DependencyGraph, stack: seq<Path>, v: Path, from: nat) {
    forall i :: from <= i < |stack| ==> Reaches(g, v, stack[i])
  }

  /** The frame of `strongconnect(v)`, entered in state `s`, seen in state
      `t`: `v` sits on the stack just above the entry stack, its lowlink is
      the index of a stack file it reaches, and it reaches everything pushed
      since. */
  ghost predicate Active(g: DependencyGraph, s: TarjanState, t: TarjanState, v: Path) {
    && |t.stack| > |s.stack| && t.stack[|s.stack|] == v
    && v in t.indices && v in t.lowlinks && t.lowlinks[v] <= t.indices[v]
    && Witnessed(g, t.onStack, t.indices, v, t.lowlinks[v])
    && ReachesAbove(g, t.stack, v, |s.stack|)
  }

  /** Every edge out of the stack files from position `lo` up leads to a
      visited file that, if still on the stack, has index at least `low`. */
  ghost predicate EdgesBounded(g: DependencyGraph, stack: seq<Path>, onStack: set<Path>, indices: map<Path, nat>,
                               lo: nat, low: nat) {
    forall i, y :: lo <= i < |stack| && y in Succ(g, stack[i]) ==>
      y in indices && (y in onStack ==> low <= indices[y])
  }

  /** The same bound for the imports of `v` examined so far. */
  ghost predicate ExaminedBounded(onStack: set<Path>, indices: map<Path, nat>, examined: set<Path>, low: nat) {
    forall y :: y in examined ==> y in indices && (y in onStack ==> low <= indices[y])
  }

  /** The invariant of the loop over the imports of `v`. */
  ghost predicate LoopInv(g: DependencyGraph, s: TarjanState, t: TarjanState, v: Path,
                          grays: seq<Path>, examined: set<Path>) {
    && Inv(g, t, grays + [v])
    && Extends(s, t)
    && v !in s.indices && v !in s.lowlinks
    && v in t.indices && t.indices[v] == s.index
    && Active(g, s, t, v)
    && EdgesBounded(g, t.stack, t.onStack, t.indices, |s.stack| + 1, t.lowlinks[v])
    && ExaminedBounded(t.onStack, t.indices, examined, t.lowlinks[v])
    && (forall a :: a in grays ==> Reaches(g, a, v))
  }

  function Push(s: TarjanState, v: Path): TarjanState {
    s.(index := s.index + 1, indices := s.indices[v := s.index],
       lowlinks := s.lowlinks[v := s.index], stack := s.stack + [v], onStack := s.onStack + {v})
  }

  /** The stack above the entry stack of `strongconnect(v)`. */
  function Suffix(s: TarjanState, t: TarjanState): seq<Path>
    requires |s.stack| <= |t.stack|
  {
    t.stack[|s.stack|..]
  }

  /** The state after the component is popped: the suffix leaves the stack
      and the cycle list becomes `cycles`. */
  ghost function Popped(s: TarjanState, t: TarjanState, cycles: seq<seq<Path>>): TarjanState
    requires |s.stack| <= |t.stack|
  {
    t.(stack := s.stack, onStack := t.onStack - Members(Suffix(s, t)), cycles := cycles)
  }
}
