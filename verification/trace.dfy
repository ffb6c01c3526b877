/** The path search of `trace_imports` in fastdeps/mcp_server.py: whether one
    project file reaches another along import edges, and by which routes, as
    a breadth-first search that expands each file at most once and stops
    after five routes. */
module Trace {
  import opened Paths
  import opened Graphs
  import opened Reach
  import opened TarjanInv
  import opened Tarjan

  /** The four answers: a file is not a node, the target is imported
      directly, no route exists, or the routes found. */
  datatype TraceResult =
    | NotFound(missing: Path)
    | DirectImport
    | NoPath
    | Routes(paths: seq<seq<Path>>)

  /** `while queue and len(paths) < 5`. */
  const MaxPaths: nat := 5

  /** A queue entry `(current, path)`. */
  datatype Queued = Queued(current: Path, path: seq<Path>)

  /** `w` walks along import edges from `x` to `y`. */
  ghost predicate IsRoute(g: DependencyGraph, x: Path, y: Path, w: seq<Path>) {
    IsWalk(g, w) && w[0] == x && w[|w| - 1] == y
  }

  /** Some file reachable from `from` imports `to`: a route to `to` of at
      least one step exists. */
  ghost predicate ImportedFrom(g: DependencyGraph, from: Path, to: Path) {
    exists v :: Reaches(g, from, v) && to in Succ(g, v)
  }

  /** The file before the last on a route of at least one step is reached
      from the start and imports the end. */
  lemma RouteImporter(g: DependencyGraph, from: Path, to: Path, w: seq<Path>)
    requires IsRoute(g, from, to, w) && |w| >= 2
    ensures ImportedFrom(g, from, to)
  {
    var front := w[..|w| - 1];
    assert IsWalk(g, front) by {
      forall i | 0 <= i < |front| - 1 ensures front[i + 1] in Succ(g, front[i]) {
        assert front[i] == w[i] && front[i + 1] == w[i + 1];
      }
    }
    assert Reaches(g, from, front[|front| - 1]);
    assert to in Succ(g, w[|w| - 2]);
  }

  /** Every queued path walks from `from` to its entry's file. */
  ghost predicate QueueOk(g: DependencyGraph, from: Path, queue: seq<Queued>) {
    forall k :: 0 <= k < |queue| ==> IsRoute(g, from, queue[k].current, queue[k].path)
  }

  /** Every found path walks from `from` to `to` in at least one step. */
  ghost predicate PathsOk(g: DependencyGraph, from: Path, to: Path, paths: seq<seq<Path>>) {
    forall k :: 0 <= k < |paths| ==> IsRoute(g, from, to, paths[k]) && |paths[k]| >= 2
  }

  ghost predicate InQueue(queue: seq<Queued>, u: Path) {
    exists k :: 0 <= k < |queue| && queue[k].current == u
  }

  /** No import of an expanded file is `to`, and each is expanded or
      waiting. */
  ghost predicate Explored(g: DependencyGraph, to: Path, visited: set<Path>, queue: seq<Queued>) {
    forall v :: v in visited ==> ExpandedFrom(g, to, visited, queue, v)
  }

  /** No import of `v` is `to`, and each is expanded or waiting. */
  ghost predicate ExpandedFrom(g: DependencyGraph, to: Path, visited: set<Path>, queue: seq<Queued>, v: Path) {
    forall u :: u in Succ(g, v) ==> u != to && (u in visited || InQueue(queue, u))
  }

  lemma RouteSnoc(g: DependencyGraph, from: Path, x: Path, w: seq<Path>, y: Path)
    requires IsRoute(g, from, x, w) && y in Succ(g, x)
    ensures IsRoute(g, from, y, w + [y]) && |w + [y]| >= 2
  {
    var w' := w + [y];
    forall i | 0 <= i < |w'| - 1 ensures w'[i + 1] in Succ(g, w'[i]) {
      if i < |w| - 1 {
        assert w'[i] == w[i] && w'[i + 1] == w[i + 1];
      }
    }
  }

  /** The inner loop (lines 296-303) over the imports of `item.current`, in
      the set's iteration order: `to` closes a path, any other file not yet
      expanded is queued. */
  method Expand(g: DependencyGraph, from: Path, to: Path, item: Queued, visited: set<Path>,
                queue: seq<Queued>, paths: seq<seq<Path>>)
    returns (queue': seq<Queued>, paths': seq<seq<Path>>)
    requires IsRoute(g, from, item.current, item.path)
    requires QueueOk(g, from, queue) && PathsOk(g, from, to, paths)
    ensures QueueOk(g, from, queue') && PathsOk(g, from, to, paths')
    ensures |paths| <= |paths'| <= |paths| + 1
    ensures paths' == [] ==> paths == []
    ensures forall u :: InQueue(queue, u) ==> InQueue(queue', u)
    ensures forall u :: InQueue(queue', u) ==> InQueue(queue, u) || u in Succ(g, item.current)
    ensures paths' == [] ==> forall u :: u in Succ(g, item.current) ==>
      u != to && (u in visited || InQueue(queue', u))
  {
    var todo := Succ(g, item.current);
    queue' := queue;
    paths' := paths;
    while todo != {}
      invariant todo <= Succ(g, item.current)
      invariant QueueOk(g, from, queue') && PathsOk(g, from, to, paths')
      invariant |paths| <= |paths'| <= |paths| + 1
      invariant to in todo ==> paths' == paths
      invariant paths' == [] ==> paths == []
      invariant |queue| <= |queue'| && queue'[..|queue|] == queue
      invariant forall u :: InQueue(queue', u) ==> InQueue(queue, u) || u in Succ(g, item.current)
      invariant paths' == [] ==> forall u :: u in Succ(g, item.current) && u !in todo ==>
        u != to && (u in visited || InQueue(queue', u))
      decreases |todo|
    {
      ghost var prev := queue';
      var imported :| imported in todo;
      RouteSnoc(g, from, item.current, item.path, imported);
      var newPath := item.path + [imported];
      if imported == to {
        paths' := paths' + [newPath];
      } else if imported !in visited {
        queue' := queue' + [Queued(imported, newPath)];
        assert queue'[|queue'| - 1].current == imported;
      }
      todo := todo - {imported};
      QueueGrows(prev, queue');
    }
    QueueGrows(queue, queue');
  }

  /** Appending to a queue keeps everything already queued. */
  lemma QueueGrows(a: seq<Queued>, b: seq<Queued>)
    requires |a| <= |b| && b[..|a|] == a
    ensures forall u :: InQueue(a, u) ==> InQueue(b, u)
  {
    forall u | InQueue(a, u) ensures InQueue(b, u) {
      var k :| 0 <= k < |a| && a[k].current == u;
      assert b[k] == a[k];
    }
  }

  /** Popping the head keeps every other queued file queued. */
  lemma PopKeeps(queue: seq<Queued>, u: Path)
    requires queue != [] && InQueue(queue, u)
    ensures u == queue[0].current || InQueue(queue[1..], u)
  {
    var k :| 0 <= k < |queue| && queue[k].current == u;
    if k > 0 {
      assert queue[1..][k - 1].current == u;
    }
  }

  /** Popping the head keeps the rest of the queue's routes and files. */
  lemma Pop(g: DependencyGraph, from: Path, queue: seq<Queued>)
    requires queue != [] && QueueOk(g, from, queue)
    ensures InQueue(queue, queue[0].current)
    ensures QueueOk(g, from, queue[1..])
    ensures forall x :: InQueue(queue[1..], x) ==> InQueue(queue, x)
  {
    var rest := queue[1..];
    forall k | 0 <= k < |rest| ensures IsRoute(g, from, rest[k].current, rest[k].path) {
      assert rest[k] == queue[k + 1];
    }
    forall x | InQueue(rest, x) ensures InQueue(queue, x) {
      var k :| 0 <= k < |rest| && rest[k].current == x;
      assert queue[k + 1].current == x;
    }
  }

  /** Expanding the popped file keeps the exploration closed. */
  lemma ExploredStep(g: DependencyGraph, to: Path, visited: set<Path>, queue: seq<Queued>,
                     cur: Path, rest: seq<Queued>, queue': seq<Queued>)
    requires queue != [] && queue[0].current == cur && rest == queue[1..]
    requires Explored(g, to, visited, queue)
    requires forall u :: InQueue(rest, u) ==> InQueue(queue', u)
    requires forall u :: u in Succ(g, cur) ==> u != to && (u in visited + {cur} || InQueue(queue', u))
    ensures Explored(g, to, visited + {cur}, queue')
  {
    forall v, u | v in visited + {cur} && u in Succ(g, v)
      ensures u != to && (u in visited + {cur} || InQueue(queue', u))
    {
      if v != cur && u !in visited && u != cur {
        assert ExpandedFrom(g, to, visited, queue, v);
        PopKeeps(queue, u);
      }
    }
  }

  /** Skipping an already expanded head keeps the exploration closed. */
  lemma ExploredSkip(g: DependencyGraph, to: Path, visited: set<Path>, queue: seq<Queued>)
    requires queue != [] && queue[0].current in visited && Explored(g, to, visited, queue)
    ensures Explored(g, to, visited, queue[1..])
  {
    var rest := queue[1..];
    forall v, u | v in visited && u in Succ(g, v)
      ensures u != to && (u in visited || InQueue(rest, u))
    {
      assert ExpandedFrom(g, to, visited, queue, v);
      if u !in visited {
        PopKeeps(queue, u);
      }
    }
  }

  /** Every queued file is a node, an import, or `from`. */
  ghost predicate Bounded(g: DependencyGraph, from: Path, visited: set<Path>, queue: seq<Queued>) {
    && visited <= Universe(g) + {from}
    && forall u :: InQueue(queue, u) ==> u in Universe(g) + {from}
  }

  /** What the search keeps between rounds: every queued path and found
      path is a route, every file met is bounded, and while nothing is found
      the exploration is closed and `from` has been met. */
  ghost predicate Searching(g: DependencyGraph, from: Path, to: Path, visited: set<Path>,
                            queue: seq<Queued>, paths: seq<seq<Path>>) {
    && QueueOk(g, from, queue) && PathsOk(g, from, to, paths)
    && Bounded(g, from, visited, queue)
    && (paths == [] ==> Explored(g, to, visited, queue) && (from in visited || InQueue(queue, from)))
  }

  /** Lines 291-293: a head already expanded is dropped. */
  lemma SkipVisited(g: DependencyGraph, from: Path, to: Path, visited: set<Path>,
                    queue: seq<Queued>, paths: seq<seq<Path>>)
    requires queue != [] && queue[0].current in visited
    requires Searching(g, from, to, visited, queue, paths)
    ensures Searching(g, from, to, visited, queue[1..], paths)
  {
    Pop(g, from, queue);
    if paths == [] {
      ExploredSkip(g, to, visited, queue);
      if from !in visited {
        PopKeeps(queue, from);
      }
    }
  }

  /** Lines 291-303: the head is expanded, its imports queued or closing a
      path. */
  method Visit(g: DependencyGraph, from: Path, to: Path, visited: set<Path>,
               queue: seq<Queued>, paths: seq<seq<Path>>)
    returns (queue': seq<Queued>, paths': seq<seq<Path>>)
    requires queue != [] && queue[0].current !in visited
    requires Searching(g, from, to, visited, queue, paths)
    ensures Searching(g, from, to, visited + {queue[0].current}, queue', paths')
    ensures |paths| <= |paths'| <= |paths| + 1
  {
    var item := queue[0];
    var rest := queue[1..];
    Pop(g, from, queue);
    if item.current in g.nodes.entries {
      queue', paths' := Expand(g, from, to, item, visited + {item.current}, rest, paths);
      SuccInUniverse(g, item.current);
    } else {
      queue', paths' := rest, paths;
    }
    if paths' == [] {
      ExploredStep(g, to, visited, queue, item.current, rest, queue');
      if from !in visited && from != item.current {
        PopKeeps(queue, from);
      }
    }
  }

  /** Lines 285-303: the breadth-first search from `from`. At most five
      paths, each a route of at least one step; none only when no file
      reachable from `from` imports `to`. */
  method Search(g: DependencyGraph, from: Path, to: Path) returns (paths: seq<seq<Path>>)
    ensures |paths| <= MaxPaths
    ensures PathsOk(g, from, to, paths)
    ensures paths == [] ==> forall v :: Reaches(g, from, v) ==> to !in Succ(g, v)
    ensures paths == [] <==> !ImportedFrom(g, from, to)
  {
    var u := Universe(g) + {from};
    var visited: set<Path> := {};
    var queue := [Queued(from, [from])];
    paths := [];
    assert InQueue(queue, from) by {
      assert queue[0].current == from;
    }
    assert IsRoute(g, from, from, [from]);
    while queue != [] && |paths| < MaxPaths
      invariant Searching(g, from, to, visited, queue, paths) && |paths| <= MaxPaths
      decreases |u - visited|, |queue|
    {
      var cur := queue[0].current;
      if cur in visited {
        SkipVisited(g, from, to, visited, queue, paths);
        queue := queue[1..];
      } else {
        assert InQueue(queue, cur) by {
          assert queue[0].current == cur;
        }
        MeasureDrops(u, visited, visited + {cur}, cur);
        queue, paths := Visit(g, from, to, visited, queue, paths);
        visited := visited + {cur};
      }
    }
    if paths == [] {
      ClosedFrom(g, to, visited, from);
    } else {
      RouteImporter(g, from, to, paths[0]);
    }
  }

  /** An exploration with nothing left queued has met every file reachable
      from its start, and none of them imports `to`. */
  lemma ClosedFrom(g: DependencyGraph, to: Path, visited: set<Path>, from: Path)
    requires Explored(g, to, visited, []) && from in visited
    ensures forall v :: Reaches(g, from, v) ==> to !in Succ(g, v)
  {
    assert Closed(g, visited);
    forall v | Reaches(g, from, v) ensures to !in Succ(g, v) {
      ClosedReaches(g, visited, from, v);
    }
  }

  /** `trace_imports` from the graph on (lines 262-315): both files must be
      nodes, a direct import is answered without a search, and otherwise
      the search's paths are reported. `fromModule` and `toModule` are the
      project-relative paths the request names. */
  method TraceImports(g: DependencyGraph, root: Path, fromModule: Path, toModule: Path) returns (r: TraceResult)
    ensures root + fromModule !in g.nodes.entries ==> r == NotFound(fromModule)
    ensures root + fromModule in g.nodes.entries && root + toModule !in g.nodes.entries ==> r == NotFound(toModule)
    ensures r.NotFound? <==> root + fromModule !in g.nodes.entries || root + toModule !in g.nodes.entries
    ensures r.DirectImport? <==>
      root + toModule in g.nodes.entries && HasEdge(g, root + fromModule, root + toModule)
    ensures r.NoPath? <==>
      && root + fromModule in g.nodes.entries && root + toModule in g.nodes.entries
      && !HasEdge(g, root + fromModule, root + toModule) && !ImportedFrom(g, root + fromModule, root + toModule)
    ensures r.Routes? <==>
      && root + fromModule in g.nodes.entries && root + toModule in g.nodes.entries
      && !HasEdge(g, root + fromModule, root + toModule) && ImportedFrom(g, root + fromModule, root + toModule)
    ensures r.NoPath? ==> forall v :: Reaches(g, root + fromModule, v) ==> root + toModule !in Succ(g, v)
    ensures r.Routes? ==> 1 <= |r.paths| <= MaxPaths
    ensures r.Routes? ==> forall k :: 0 <= k < |r.paths| ==>
      IsRoute(g, root + fromModule, root + toModule, r.paths[k]) && |r.paths[k]| - 1 >= 2
  {
    var from := root + fromModule;
    var to := root + toModule;
    if from !in g.nodes.entries {
      return NotFound(fromModule);
    }
    if to !in g.nodes.entries {
      return NotFound(toModule);
    }
    if to in g.nodes.entries[from].imports {
      return DirectImport;
    }
    var paths := Search(g, from, to);
    if paths == [] {
      return NoPath;
    }
    return Routes(paths);
  }
}
