/** `to_dict` of fastdeps/graph.py: the graph as the JSON-ready dictionary
    `{nodes, edges, external}`, with every path printed relative to the
    graph root when one is set. A path outside the root makes
    `relative_to` raise; the model returns `None` then. */
module GraphDicts {
  import opened Wrappers
  import opened Strings
  import opened Paths
  import opened Dicts
  import opened Graphs
  import opened Stats
  import opened Seqs

  /** The three counts `to_dict` records per node. */
  datatype NodeCounts = NodeCounts(importsCount: nat, importedByCount: nat, externalCount: nat)

  /** `{'from': ..., 'to': ...}`. */
  datatype EdgeEntry = EdgeEntry(from: string, to: string)

  /** The dictionary `to_dict` returns. */
  datatype GraphDict = GraphDict(
    nodes: Dict<string, NodeCounts>,
    edges: seq<EdgeEntry>,
    external: Dict<string, seq<string>>)

  /** The counts of the node stored under `p`. */
  function CountsAt(g: DependencyGraph, p: Path): NodeCounts {
    if p in g.nodes.entries then
      var n := g.nodes.entries[p];
      NodeCounts(|n.imports|, |n.importedBy|, |n.externalImports|)
    else NodeCounts(0, 0, 0)
  }

  /** Every node and every imported file can be printed: none lies outside
      the root. */
  ghost predicate Printable(g: DependencyGraph) {
    && (forall p :: p in g.nodes.entries ==> Display(p, g.rootPath).Some?)
    && (forall p, q :: HasEdge(g, p, q) ==> Display(q, g.rootPath).Some?)
  }

  /** No other node prints as `p` does, so nothing overwrites its entries. */
  ghost predicate PrintsAlone(g: DependencyGraph, p: Path) {
    forall q :: q in g.nodes.entries && Display(q, g.rootPath) == Display(p, g.rootPath) ==> q == p
  }

  lemma NodeListed(g: DependencyGraph, i: nat)
    requires g.nodes.Valid() && i < |g.nodes.keys|
    ensures g.nodes.keys[i] in g.nodes.entries
  {
    assert g.nodes.keys[i] in (set k | k in g.nodes.keys);
  }

  // ----- the node entries -----

  /** The first `i` nodes all print. */
  ghost predicate ShownUpTo(g: DependencyGraph, i: nat)
    requires i <= |g.nodes.keys|
  {
    forall j :: 0 <= j < i ==> Display(g.nodes.keys[j], g.rootPath).Some?
  }

  /** The printed name of node `j`. */
  function NameAt(g: DependencyGraph, j: nat): string
    requires j < |g.nodes.keys|
  {
    match Display(g.nodes.keys[j], g.rootPath)
    case Some(name) => name
    case None => ""
  }

  /** `k` is the printed name of one of the first `i` nodes with `keep`. */
  ghost predicate NamedUpTo(g: DependencyGraph, i: nat, keep: Path -> bool, k: string)
    requires i <= |g.nodes.keys|
  {
    exists j :: 0 <= j < i && keep(g.nodes.keys[j]) && Display(g.nodes.keys[j], g.rootPath) == Some(k)
  }

  /** A dictionary keyed by printed names, written once per node with `keep`
      in node order: its keys are the names written, and the entry of each
      node that prints alone is one `ok` accepts. */
  ghost predicate KeyedUpTo<V>(g: DependencyGraph, i: nat, keep: Path -> bool, ok: (Path, V) -> bool, d: Dict<string, V>)
    requires i <= |g.nodes.keys|
  {
    && d.Valid()
    && (forall k :: k in d.entries <==> NamedUpTo(g, i, keep, k))
    && (forall j :: 0 <= j < i && keep(g.nodes.keys[j]) && PrintsAlone(g, g.nodes.keys[j]) ==>
          NameAt(g, j) in d.entries && ok(g.nodes.keys[j], d.entries[NameAt(g, j)]))
  }

  lemma NamedStep(g: DependencyGraph, i: nat, keep: Path -> bool, name: string, k: string)
    requires i < |g.nodes.keys| && Display(g.nodes.keys[i], g.rootPath) == Some(name)
    ensures NamedUpTo(g, i + 1, keep, k) <==> NamedUpTo(g, i, keep, k) || (keep(g.nodes.keys[i]) && k == name)
  {
    if NamedUpTo(g, i + 1, keep, k) {
      var j :| 0 <= j < i + 1 && keep(g.nodes.keys[j]) && Display(g.nodes.keys[j], g.rootPath) == Some(k);
      if j < i {
        assert NamedUpTo(g, i, keep, k);
      }
    }
    if NamedUpTo(g, i, keep, k) {
      var j :| 0 <= j < i && keep(g.nodes.keys[j]) && Display(g.nodes.keys[j], g.rootPath) == Some(k);
      assert 0 <= j < i + 1;
    }
  }

  /** `d[name] = v` for node `i` when it has `keep`. */
  function WriteAt<V>(g: DependencyGraph, i: nat, keep: Path -> bool, d: Dict<string, V>, name: string, v: V): (r: Dict<string, V>)
    requires i < |g.nodes.keys| && d.Valid()
    ensures r.Valid()
    ensures forall k :: k in r.entries <==> k in d.entries || (keep(g.nodes.keys[i]) && k == name)
    ensures forall k :: k in r.entries ==> r.entries[k] == if keep(g.nodes.keys[i]) && k == name then v else d.entries[k]
  {
    if keep(g.nodes.keys[i]) then d.Put(name, v) else d
  }

  lemma KeyedStep<V>(g: DependencyGraph, i: nat, keep: Path -> bool, ok: (Path, V) -> bool, d: Dict<string, V>, name: string, v: V)
    requires g.nodes.Valid() && i < |g.nodes.keys| && ShownUpTo(g, i)
    requires Display(g.nodes.keys[i], g.rootPath) == Some(name)
    requires KeyedUpTo(g, i, keep, ok, d)
    requires keep(g.nodes.keys[i]) ==> ok(g.nodes.keys[i], v)
    ensures KeyedUpTo(g, i + 1, keep, ok, WriteAt(g, i, keep, d, name, v))
  {
    KeysStep(g, i, keep, d, name, v);
    ValuesStep(g, i, keep, ok, d, name, v);
  }

  lemma KeysStep<V>(g: DependencyGraph, i: nat, keep: Path -> bool, d: Dict<string, V>, name: string, v: V)
    requires i < |g.nodes.keys| && d.Valid()
    requires Display(g.nodes.keys[i], g.rootPath) == Some(name)
    requires forall k :: k in d.entries <==> NamedUpTo(g, i, keep, k)
    ensures forall k :: k in WriteAt(g, i, keep, d, name, v).entries <==> NamedUpTo(g, i + 1, keep, k)
  {
    forall k ensures k in WriteAt(g, i, keep, d, name, v).entries <==> NamedUpTo(g, i + 1, keep, k) {
      NamedStep(g, i, keep, name, k);
    }
  }

  lemma ValuesStep<V>(g: DependencyGraph, i: nat, keep: Path -> bool, ok: (Path, V) -> bool, d: Dict<string, V>, name: string, v: V)
    requires g.nodes.Valid() && i < |g.nodes.keys| && d.Valid() && ShownUpTo(g, i)
    requires Display(g.nodes.keys[i], g.rootPath) == Some(name)
    requires forall j :: 0 <= j < i && keep(g.nodes.keys[j]) && PrintsAlone(g, g.nodes.keys[j]) ==>
      NameAt(g, j) in d.entries && ok(g.nodes.keys[j], d.entries[NameAt(g, j)])
    requires keep(g.nodes.keys[i]) ==> ok(g.nodes.keys[i], v)
    ensures var r := WriteAt(g, i, keep, d, name, v);
      forall j :: 0 <= j < i + 1 && keep(g.nodes.keys[j]) && PrintsAlone(g, g.nodes.keys[j]) ==>
        NameAt(g, j) in r.entries && ok(g.nodes.keys[j], r.entries[NameAt(g, j)])
  {
    var keys := g.nodes.keys;
    var r := WriteAt(g, i, keep, d, name, v);
    NodeListed(g, i);
    forall j | 0 <= j < i + 1 && keep(keys[j]) && PrintsAlone(g, keys[j])
      ensures NameAt(g, j) in r.entries && ok(keys[j], r.entries[NameAt(g, j)])
    {
      if j < i {
        assert keys[j] != keys[i];
        assert NameAt(g, j) != name;
      }
    }
  }

  /** The node entry of `p` holds its counts. */
  ghost predicate CountsOk(g: DependencyGraph, p: Path, c: NodeCounts) {
    c == CountsAt(g, p)
  }

  /** The external entry of `p` lists its external names in sorted order. */
  ghost predicate NamesOk(g: DependencyGraph, p: Path, names: seq<string>) {
    StrictlySorted(names) && (set n | n in names) == Externals(g, p)
  }

  /** Nodes with external imports. */
  predicate HasExternals(g: DependencyGraph, p: Path) {
    Externals(g, p) != {}
  }

  // ----- the edge list -----

  /** `block` holds one edge from `from` per file of `todo`, and nothing
      else. */
  ghost predicate EdgesFrom(from: string, todo: set<Path>, root: Option<Path>, block: seq<EdgeEntry>) {
    && |block| == |todo|
    && forall e :: e in block <==> e.from == from && exists q :: q in todo && Display(q, root) == Some(e.to)
  }

  /** `for imported in node.imports`: one edge from `from` per file left in
      `todo`, appended after `edges` in the set's iteration order; `None`
      when one of them cannot be printed. */
  method AddEdges(from: string, todo: set<Path>, root: Option<Path>, edges: seq<EdgeEntry>)
    returns (r: Option<seq<EdgeEntry>>)
    ensures r.None? <==> exists q :: q in todo && Display(q, root).None?
    ensures r.Some? ==> |r.value| == |edges| + |todo|
    ensures r.Some? ==> forall e :: e in r.value <==>
      e in edges || (e.from == from && exists q :: q in todo && Display(q, root) == Some(e.to))
    ensures r.Some? ==> edges <= r.value && EdgesFrom(from, todo, root, r.value[|edges|..])
    decreases |todo|
  {
    if todo == {} {
      return Some(edges);
    }
    var q :| q in todo;
    var shown := Display(q, root);
    if shown.None? {
      return None;
    }
    var first := EdgeEntry(from, shown.value);
    r := AddEdges(from, todo - {q}, root, edges + [first]);
    if r.Some? {
      var block := r.value[|edges|..];
      assert block == [first] + r.value[|edges| + 1..];
      forall e ensures e in block <==> e.from == from && exists q' :: q' in todo && Display(q', root) == Some(e.to) {
        if e.from == from && e != first {
          if q' :| q' in todo && Display(q', root) == Some(e.to) {
            assert q' in todo - {q};
          }
        }
      }
    }
  }

  /** Node `j` wrote `block`: its edges, from its printed name. */
  ghost predicate EdgeBlock(g: DependencyGraph, j: int, block: seq<EdgeEntry>) {
    0 <= j < |g.nodes.keys| && EdgesFrom(NameAt(g, j), Succ(g, g.nodes.keys[j]), g.rootPath, block)
  }

  /** The blocks the edge list is made of, node by node. */
  ghost function EdgeBlocks(g: DependencyGraph): (nat, seq<EdgeEntry>) -> bool {
    (j, block) => EdgeBlock(g, j, block)
  }

  /** The edge list is node 0's block, then node 1's, and so on in
      insertion order. */
  ghost predicate EdgesByNode(g: DependencyGraph, edges: seq<EdgeEntry>) {
    Grouped(|g.nodes.keys|, EdgeBlocks(g), edges)
  }

  /** `e` is the edge of an import of one of the first `i` nodes. */
  ghost predicate EdgeUpTo(g: DependencyGraph, i: nat, e: EdgeEntry)
    requires i <= |g.nodes.keys|
  {
    exists j, q :: 0 <= j < i && q in Succ(g, g.nodes.keys[j])
      && Display(g.nodes.keys[j], g.rootPath) == Some(e.from) && Display(q, g.rootPath) == Some(e.to)
  }

  /** `result['edges']` after the first `i` nodes. */
  ghost predicate EdgesUpTo(g: DependencyGraph, i: nat, edges: seq<EdgeEntry>)
    requires i <= |g.nodes.keys|
  {
    var keys := g.nodes.keys;
    && |edges| == SumSizes(keys[..i], p => Succ(g, p))
    && (forall j, q :: 0 <= j < i && q in Succ(g, keys[j]) ==> Display(q, g.rootPath).Some?)
    && (forall e :: e in edges <==> EdgeUpTo(g, i, e))
  }

  lemma {:induction false} SumSizesAppend<B>(keys: seq<Path>, p: Path, f: Path -> set<B>)
    ensures SumSizes(keys + [p], f) == SumSizes(keys, f) + |f(p)|
    decreases |keys|
  {
    if |keys| > 0 {
      assert (keys + [p])[1..] == keys[1..] + [p];
      SumSizesAppend(keys[1..], p, f);
    }
  }

  /** Edges of the first `i + 1` nodes listed in `edges'` are those of
      `edges` and those of node `i`. */
  ghost predicate EdgesExtend(g: DependencyGraph, i: nat, edges: seq<EdgeEntry>, name: string, edges': seq<EdgeEntry>)
    requires i < |g.nodes.keys|
  {
    forall e :: e in edges' <==>
      (e in edges || (e.from == name && exists q :: q in Succ(g, g.nodes.keys[i]) && Display(q, g.rootPath) == Some(e.to)))
  }

  lemma EdgesStep(g: DependencyGraph, i: nat, edges: seq<EdgeEntry>, name: string, edges': seq<EdgeEntry>)
    requires i < |g.nodes.keys| && EdgesUpTo(g, i, edges)
    requires Display(g.nodes.keys[i], g.rootPath) == Some(name)
    requires forall q :: q in Succ(g, g.nodes.keys[i]) ==> Display(q, g.rootPath).Some?
    requires |edges'| == |edges| + |Succ(g, g.nodes.keys[i])|
    requires EdgesExtend(g, i, edges, name, edges')
    ensures EdgesUpTo(g, i + 1, edges')
  {
    var keys := g.nodes.keys;
    var f := p => Succ(g, p);
    assert keys[..i + 1] == keys[..i] + [keys[i]];
    SumSizesAppend(keys[..i], keys[i], f);
    EdgesStepShown(g, i, edges);
    forall e ensures e in edges' <==> EdgeUpTo(g, i + 1, e) {
      EdgeStepMember(g, i, edges, name, edges', e);
    }
  }

  lemma EdgesStepShown(g: DependencyGraph, i: nat, edges: seq<EdgeEntry>)
    requires i < |g.nodes.keys| && EdgesUpTo(g, i, edges)
    requires forall q :: q in Succ(g, g.nodes.keys[i]) ==> Display(q, g.rootPath).Some?
    ensures forall j, q :: 0 <= j < i + 1 && q in Succ(g, g.nodes.keys[j]) ==> Display(q, g.rootPath).Some?
  {
  }

  lemma EdgeStepMember(g: DependencyGraph, i: nat, edges: seq<EdgeEntry>, name: string, edges': seq<EdgeEntry>, e: EdgeEntry)
    requires i < |g.nodes.keys|
    requires forall e :: e in edges <==> EdgeUpTo(g, i, e)
    requires Display(g.nodes.keys[i], g.rootPath) == Some(name)
    requires EdgesExtend(g, i, edges, name, edges')
    ensures e in edges' <==> EdgeUpTo(g, i + 1, e)
  {
    var keys := g.nodes.keys;
    if e in edges' && e !in edges {
      var q :| q in Succ(g, keys[i]) && Display(q, g.rootPath) == Some(e.to);
      assert Display(keys[i], g.rootPath) == Some(e.from);
    }
    if EdgeUpTo(g, i + 1, e) {
      var j, q :| 0 <= j < i + 1 && q in Succ(g, keys[j])
        && Display(keys[j], g.rootPath) == Some(e.from) && Display(q, g.rootPath) == Some(e.to);
      if j < i {
        assert EdgeUpTo(g, i, e);
      }
    }
  }

  /** The edges of node `i`, appended to those of the nodes before it. */
  method NodeEdges(g: DependencyGraph, i: nat, edges: seq<EdgeEntry>) returns (r: Option<seq<EdgeEntry>>)
    requires i < |g.nodes.keys| && Display(g.nodes.keys[i], g.rootPath).Some?
    requires EdgesUpTo(g, i, edges) && Grouped(i, EdgeBlocks(g), edges)
    ensures r.None? ==> !Printable(g)
    ensures r.Some? ==> EdgesUpTo(g, i + 1, r.value) && Grouped(i + 1, EdgeBlocks(g), r.value)
  {
    var p := g.nodes.keys[i];
    var name := Display(p, g.rootPath).value;
    r := AddEdges(name, Succ(g, p), g.rootPath, edges);
    if r.None? {
      var q :| q in Succ(g, p) && Display(q, g.rootPath).None?;
      assert HasEdge(g, p, q);
      return;
    }
    EdgesStep(g, i, edges, name, r.value);
    BlockStep(g, i, edges, r.value);
  }

  /** The edges `AddEdges` appended for node `i` are its block. */
  lemma BlockStep(g: DependencyGraph, i: nat, edges: seq<EdgeEntry>, edges': seq<EdgeEntry>)
    requires i < |g.nodes.keys| && Grouped(i, EdgeBlocks(g), edges)
    requires Display(g.nodes.keys[i], g.rootPath).Some?
    requires edges <= edges'
    requires EdgesFrom(Display(g.nodes.keys[i], g.rootPath).value, Succ(g, g.nodes.keys[i]), g.rootPath, edges'[|edges|..])
    ensures Grouped(i + 1, EdgeBlocks(g), edges')
  {
    assert EdgeBlocks(g)(i, edges'[|edges|..]);
    GroupedStep(i, EdgeBlocks(g), edges, edges');
  }

  // ----- the whole dictionary -----

  /** The three parts of the result after the first `i` nodes. */
  ghost predicate DictUpTo(g: DependencyGraph, i: nat, d: GraphDict)
    requires i <= |g.nodes.keys|
  {
    && ShownUpTo(g, i)
    && KeyedUpTo(g, i, p => true, (p, c) => CountsOk(g, p, c), d.nodes)
    && EdgesUpTo(g, i, d.edges)
    && Grouped(i, EdgeBlocks(g), d.edges)
    && KeyedUpTo(g, i, p => HasExternals(g, p), (p, names) => NamesOk(g, p, names), d.external)
  }

  /** One pass of the loop of `to_dict`: the node's counts, its edges and its
      sorted external names; `None` when it or one of its imports cannot be
      printed. */
  method AddNode(g: DependencyGraph, i: nat, d: GraphDict) returns (r: Option<GraphDict>)
    requires g.nodes.Valid() && i < |g.nodes.keys| && DictUpTo(g, i, d)
    ensures r.None? ==> !Printable(g)
    ensures r.Some? ==> DictUpTo(g, i + 1, r.value)
  {
    var p := g.nodes.keys[i];
    NodeListed(g, i);
    var shown := Display(p, g.rootPath);
    if shown.None? {
      return None;
    }
    var name := shown.value;
    var edges := NodeEdges(g, i, d.edges);
    if edges.None? {
      return None;
    }
    var nodes, ext := NodeKeys(g, i, d, name);
    return Some(GraphDict(nodes, edges.value, ext));
  }

  /** The node's counts, and its sorted external names when it has any,
      written under its printed path. */
  method NodeKeys(g: DependencyGraph, i: nat, d: GraphDict, name: string)
    returns (nodes: Dict<string, NodeCounts>, ext: Dict<string, seq<string>>)
    requires g.nodes.Valid() && i < |g.nodes.keys| && ShownUpTo(g, i)
    requires Display(g.nodes.keys[i], g.rootPath) == Some(name)
    requires KeyedUpTo(g, i, p => true, (p, c) => CountsOk(g, p, c), d.nodes)
    requires KeyedUpTo(g, i, p => HasExternals(g, p), (p, names) => NamesOk(g, p, names), d.external)
    ensures KeyedUpTo(g, i + 1, p => true, (p, c) => CountsOk(g, p, c), nodes)
    ensures KeyedUpTo(g, i + 1, p => HasExternals(g, p), (p, names) => NamesOk(g, p, names), ext)
  {
    var p := g.nodes.keys[i];
    nodes := d.nodes.Put(name, CountsAt(g, p));
    KeyedStep(g, i, p => true, (p, c) => CountsOk(g, p, c), d.nodes, name, CountsAt(g, p));
    var names := SortedStrings(Externals(g, p));
    ext := if HasExternals(g, p) then d.external.Put(name, names) else d.external;
    KeyedStep(g, i, p => HasExternals(g, p), (p, names) => NamesOk(g, p, names), d.external, name, names);
  }

  /** Every node is one of the listed keys. */
  lemma NodeIndex(g: DependencyGraph, p: Path) returns (j: nat)
    requires g.nodes.Valid() && p in g.nodes.entries
    ensures j < |g.nodes.keys| && g.nodes.keys[j] == p
  {
    assert p in (set k | k in g.nodes.keys);
    j :| 0 <= j < |g.nodes.keys| && g.nodes.keys[j] == p;
  }

  /** After the last node, a dictionary written per node has one key per
      kept node's printed path. */
  lemma KeysComplete<V>(g: DependencyGraph, keep: Path -> bool, ok: (Path, V) -> bool, d: Dict<string, V>)
    requires g.nodes.Valid() && KeyedUpTo(g, |g.nodes.keys|, keep, ok, d)
    ensures forall k :: k in d.entries <==> exists p :: p in g.nodes.entries && keep(p) && Display(p, g.rootPath) == Some(k)
  {
    var n := |g.nodes.keys|;
    forall k ensures k in d.entries <==> exists p :: p in g.nodes.entries && keep(p) && Display(p, g.rootPath) == Some(k) {
      if k in d.entries {
        var j :| 0 <= j < n && keep(g.nodes.keys[j]) && Display(g.nodes.keys[j], g.rootPath) == Some(k);
        NodeListed(g, j);
      }
      if p :| p in g.nodes.entries && keep(p) && Display(p, g.rootPath) == Some(k) {
        var j := NodeIndex(g, p);
        assert NamedUpTo(g, n, keep, k);
      }
    }
  }

  /** After the last node, the entry of a kept node no other node prints
      like holds a value `ok` accepts for it. */
  lemma ValuesComplete<V>(g: DependencyGraph, keep: Path -> bool, ok: (Path, V) -> bool, d: Dict<string, V>)
    requires g.nodes.Valid() && KeyedUpTo(g, |g.nodes.keys|, keep, ok, d)
    ensures forall p :: p in g.nodes.entries && keep(p) && PrintsAlone(g, p) && Display(p, g.rootPath).Some? ==>
      Display(p, g.rootPath).value in d.entries && ok(p, d.entries[Display(p, g.rootPath).value])
  {
    forall p | p in g.nodes.entries && keep(p) && PrintsAlone(g, p) && Display(p, g.rootPath).Some?
      ensures Display(p, g.rootPath).value in d.entries && ok(p, d.entries[Display(p, g.rootPath).value])
    {
      var j := NodeIndex(g, p);
      assert NameAt(g, j) == Display(p, g.rootPath).value;
    }
  }

  /** After the last node the edge list holds one edge per import edge. */
  lemma EdgesComplete(g: DependencyGraph, edges: seq<EdgeEntry>)
    requires g.nodes.Valid() && EdgesUpTo(g, |g.nodes.keys|, edges)
    ensures |edges| == |Edges(g)|
    ensures forall p, q :: HasEdge(g, p, q) ==> Display(q, g.rootPath).Some?
    ensures forall e :: e in edges <==>
      (exists p, q :: HasEdge(g, p, q) && Display(p, g.rootPath) == Some(e.from) && Display(q, g.rootPath) == Some(e.to))
  {
    var keys := g.nodes.keys;
    assert keys[..|keys|] == keys;
    DependenciesCountEdges(g);
    forall p, q | HasEdge(g, p, q) ensures Display(q, g.rootPath).Some? {
      var j := NodeIndex(g, p);
      assert q in Succ(g, keys[j]);
    }
    forall e ensures e in edges <==>
      (exists p, q :: HasEdge(g, p, q) && Display(p, g.rootPath) == Some(e.from) && Display(q, g.rootPath) == Some(e.to))
    {
      if e in edges {
        var j, q :| 0 <= j < |keys| && q in Succ(g, keys[j])
          && Display(keys[j], g.rootPath) == Some(e.from) && Display(q, g.rootPath) == Some(e.to);
        NodeListed(g, j);
        assert HasEdge(g, keys[j], q);
      }
      if p, q :| HasEdge(g, p, q) && Display(p, g.rootPath) == Some(e.from) && Display(q, g.rootPath) == Some(e.to) {
        var j := NodeIndex(g, p);
        assert q in Succ(g, keys[j]);
        assert EdgeUpTo(g, |keys|, e);
      }
    }
  }

  lemma ShownComplete(g: DependencyGraph)
    requires g.nodes.Valid() && ShownUpTo(g, |g.nodes.keys|)
    ensures forall p :: p in g.nodes.entries ==> Display(p, g.rootPath).Some?
  {
    forall p | p in g.nodes.entries ensures Display(p, g.rootPath).Some? {
      var j := NodeIndex(g, p);
    }
  }

  /** One node entry per printed node path, holding that node's counts when
      no other node prints alike. */
  ghost predicate NodesDescribed(g: DependencyGraph, nodes: Dict<string, NodeCounts>)
    requires forall p :: p in g.nodes.entries ==> Display(p, g.rootPath).Some?
  {
    && (forall k :: k in nodes.entries <==>
          (exists p :: p in g.nodes.entries && Display(p, g.rootPath) == Some(k)))
    && (forall p :: p in g.nodes.entries && PrintsAlone(g, p) ==>
          Display(p, g.rootPath).value in nodes.entries
          && nodes.entries[Display(p, g.rootPath).value] == CountsAt(g, p))
  }

  /** One edge per import edge. */
  ghost predicate EdgesDescribed(g: DependencyGraph, edges: seq<EdgeEntry>) {
    && |edges| == |Edges(g)|
    && (forall e :: e in edges <==>
          (exists p, q :: HasEdge(g, p, q) && Display(p, g.rootPath) == Some(e.from) && Display(q, g.rootPath) == Some(e.to)))
  }

  /** For each node with external imports, their names in sorted order. */
  ghost predicate ExternalDescribed(g: DependencyGraph, ext: Dict<string, seq<string>>)
    requires forall p :: p in g.nodes.entries ==> Display(p, g.rootPath).Some?
  {
    && (forall k :: k in ext.entries <==>
          (exists p :: p in g.nodes.entries && HasExternals(g, p) && Display(p, g.rootPath) == Some(k)))
    && (forall p :: p in g.nodes.entries && HasExternals(g, p) && PrintsAlone(g, p) ==>
          Display(p, g.rootPath).value in ext.entries
          && NamesOk(g, p, ext.entries[Display(p, g.rootPath).value]))
  }

  /** `d` is the dictionary of `g`. A node another node prints like may have
      its entries overwritten. */
  ghost predicate DescribesGraph(g: DependencyGraph, d: GraphDict)
    requires forall p :: p in g.nodes.entries ==> Display(p, g.rootPath).Some?
  {
    NodesDescribed(g, d.nodes) && EdgesDescribed(g, d.edges) && ExternalDescribed(g, d.external)
  }

  lemma NodesComplete(g: DependencyGraph, nodes: Dict<string, NodeCounts>)
    requires g.nodes.Valid() && KeyedUpTo(g, |g.nodes.keys|, p => true, (p, c) => CountsOk(g, p, c), nodes)
    requires forall p :: p in g.nodes.entries ==> Display(p, g.rootPath).Some?
    ensures NodesDescribed(g, nodes)
  {
    NodeKeysComplete(g, nodes);
    NodeValuesComplete(g, nodes);
  }

  lemma NodeKeysComplete(g: DependencyGraph, nodes: Dict<string, NodeCounts>)
    requires g.nodes.Valid() && KeyedUpTo(g, |g.nodes.keys|, p => true, (p, c) => CountsOk(g, p, c), nodes)
    ensures forall k :: k in nodes.entries <==> (exists p :: p in g.nodes.entries && Display(p, g.rootPath) == Some(k))
  {
    KeysComplete(g, p => true, (p, c) => CountsOk(g, p, c), nodes);
  }

  lemma NodeValuesComplete(g: DependencyGraph, nodes: Dict<string, NodeCounts>)
    requires g.nodes.Valid() && KeyedUpTo(g, |g.nodes.keys|, p => true, (p, c) => CountsOk(g, p, c), nodes)
    requires forall p :: p in g.nodes.entries ==> Display(p, g.rootPath).Some?
    ensures forall p :: p in g.nodes.entries && PrintsAlone(g, p) ==>
      Display(p, g.rootPath).value in nodes.entries && nodes.entries[Display(p, g.rootPath).value] == CountsAt(g, p)
  {
    ValuesComplete(g, p => true, (p, c) => CountsOk(g, p, c), nodes);
  }

  lemma ExternalComplete(g: DependencyGraph, ext: Dict<string, seq<string>>)
    requires g.nodes.Valid() && KeyedUpTo(g, |g.nodes.keys|, p => HasExternals(g, p), (p, names) => NamesOk(g, p, names), ext)
    requires forall p :: p in g.nodes.entries ==> Display(p, g.rootPath).Some?
    ensures ExternalDescribed(g, ext)
  {
    ExternalKeysComplete(g, ext);
    ExternalValuesComplete(g, ext);
  }

  lemma ExternalKeysComplete(g: DependencyGraph, ext: Dict<string, seq<string>>)
    requires g.nodes.Valid() && KeyedUpTo(g, |g.nodes.keys|, p => HasExternals(g, p), (p, names) => NamesOk(g, p, names), ext)
    ensures forall k :: k in ext.entries <==>
      (exists p :: p in g.nodes.entries && HasExternals(g, p) && Display(p, g.rootPath) == Some(k))
  {
    KeysComplete(g, p => HasExternals(g, p), (p, names) => NamesOk(g, p, names), ext);
  }

  lemma ExternalValuesComplete(g: DependencyGraph, ext: Dict<string, seq<string>>)
    requires g.nodes.Valid() && KeyedUpTo(g, |g.nodes.keys|, p => HasExternals(g, p), (p, names) => NamesOk(g, p, names), ext)
    requires forall p :: p in g.nodes.entries ==> Display(p, g.rootPath).Some?
    ensures forall p :: p in g.nodes.entries && HasExternals(g, p) && PrintsAlone(g, p) ==>
      Display(p, g.rootPath).value in ext.entries && NamesOk(g, p, ext.entries[Display(p, g.rootPath).value])
  {
    ValuesComplete(g, p => HasExternals(g, p), (p, names) => NamesOk(g, p, names), ext);
  }

  /** After the last node, the loop's account is the dictionary of the
      graph. */
  lemma DictComplete(g: DependencyGraph, d: GraphDict)
    requires g.nodes.Valid() && DictUpTo(g, |g.nodes.keys|, d)
    ensures Printable(g)
    ensures DescribesGraph(g, d)
  {
    ShownComplete(g);
    NodesComplete(g, d.nodes);
    EdgesComplete(g, d.edges);
    ExternalComplete(g, d.external);
  }

  /** The empty graph is finished before its loop starts: the empty
      dictionary describes it. */
  lemma DictCompleteEmpty()
    ensures DescribesGraph(EmptyGraph(), GraphDict(Empty(), [], Empty()))
  {
    var g := EmptyGraph();
    var d := GraphDict(Empty(), [], Empty());
    assert g.nodes.keys[..0] == [];
    GroupedStart(EdgeBlocks(g));
    assert DictUpTo(g, 0, d);
    DictComplete(g, d);
  }

  /** `to_dict`: `None` exactly when some node or imported file lies outside
      the root, and the dictionary of the graph otherwise. */
  method ToDict(g: DependencyGraph) returns (r: Option<GraphDict>)
    requires g.nodes.Valid()
    ensures r.None? <==> !Printable(g)
    ensures r.Some? ==> Printable(g) && DescribesGraph(g, r.value)
    ensures r.Some? ==> EdgesByNode(g, r.value.edges)
  {
    var d := GraphDict(Empty(), [], Empty());
    assert g.nodes.keys[..0] == [];
    GroupedStart(EdgeBlocks(g));
    for i := 0 to |g.nodes.keys|
      invariant DictUpTo(g, i, d)
    {
      var next := AddNode(g, i, d);
      if next.None? {
        return None;
      }
      d := next.value;
    }
    DictComplete(g, d);
    return Some(d);
  }

  /** In a graph of well-formed paths no two nodes print alike, so every
      node's entries survive. */
  lemma WellFormedPrintsAlone(g: DependencyGraph, p: Path)
    requires forall q :: q in g.nodes.entries ==> WellFormed(q)
    requires p in g.nodes.entries && Display(p, g.rootPath).Some?
    ensures PrintsAlone(g, p)
  {
    forall q | q in g.nodes.entries && Display(q, g.rootPath) == Display(p, g.rootPath) ensures q == p {
      DisplayInjective(q, p, g.rootPath);
    }
  }
}
