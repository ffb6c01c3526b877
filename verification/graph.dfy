/** The dependency graph (fastdeps/graph.py): one node per file, each holding
    the files it imports, the files importing it and the names of external
    modules it imports. The Python class mutates its dictionary in place; here
    every mutator returns the updated graph. */
module Graphs {
  import opened Wrappers
  import opened Paths
  import opened Dicts

  /** `Node`: a file and its three neighbour sets. */
  datatype Node = Node(
    path: Path,
    imports: set<Path>,
    importedBy: set<Path>,
    externalImports: set<string>)

  /** `DependencyGraph`: the node dictionary, in insertion order, and the
      project root the analyzer records once it is known. */
  datatype DependencyGraph = DependencyGraph(nodes: Dict<Path, Node>, rootPath: Option<Path>)

  /** A graph as the mutators below keep it: the dictionary is well formed,
      every node is stored under its own path, every neighbour is itself a
      node, and `importedBy` mirrors `imports` exactly. */
  ghost predicate Valid(g: DependencyGraph) {
    && g.nodes.Valid()
    && (forall p :: p in g.nodes.entries ==> g.nodes.entries[p].path == p)
    && (forall p, q :: HasEdge(g, p, q) ==> q in g.nodes.entries)
    && (forall q, p :: HasBackEdge(g, q, p) ==> p in g.nodes.entries)
    && (forall p, q :: HasEdge(g, p, q) <==> HasBackEdge(g, q, p))
  }

  predicate HasNode(g: DependencyGraph, p: Path) {
    p in g.nodes.entries
  }

  /** `p` imports `q`. */
  predicate HasEdge(g: DependencyGraph, p: Path, q: Path) {
    p in g.nodes.entries && q in g.nodes.entries[p].imports
  }

  /** `q` is recorded as imported by `p`. */
  predicate HasBackEdge(g: DependencyGraph, q: Path, p: Path) {
    q in g.nodes.entries && p in g.nodes.entries[q].importedBy
  }

  /** `p` imports the external module `name`. */
  predicate HasExternal(g: DependencyGraph, p: Path, name: string) {
    p in g.nodes.entries && name in g.nodes.entries[p].externalImports
  }

  /** The files `x` imports; a path that is not a node imports nothing, as
      the `if node_path in self.nodes` guards of the traversals read it. */
  function Succ(g: DependencyGraph, x: Path): set<Path> {
    if x in g.nodes.entries then g.nodes.entries[x].imports else {}
  }

  /** `DependencyGraph()`: no nodes and no root. */
  function EmptyGraph(): (g: DependencyGraph)
    ensures Valid(g)
    ensures g.nodes.keys == [] && g.rootPath.None?
  {
    DependencyGraph(Empty(), None)
  }

  /** `add_file`: a new path gets an empty node at the end of the dictionary;
      a known path leaves the graph as it is. */
  function AddFile(g: DependencyGraph, p: Path): (r: DependencyGraph)
    requires g.nodes.Valid()
    ensures r.nodes.Valid() && r.rootPath == g.rootPath
    ensures r.nodes.entries.Keys == g.nodes.entries.Keys + {p}
    ensures p in g.nodes.entries ==> r == g
    ensures p !in g.nodes.entries ==> r.nodes.keys == g.nodes.keys + [p]
    ensures p !in g.nodes.entries ==> r.nodes.entries[p] == Node(p, {}, {}, {})
    ensures forall q :: q in g.nodes.entries ==> r.nodes.entries[q] == g.nodes.entries[q]
    ensures forall x, y :: HasEdge(r, x, y) <==> HasEdge(g, x, y)
    ensures forall y, x :: HasBackEdge(r, y, x) <==> HasBackEdge(g, y, x)
    ensures forall x, name :: HasExternal(r, x, name) <==> HasExternal(g, x, name)
  {
    if p in g.nodes.entries then g
    else g.(nodes := g.nodes.Put(p, Node(p, {}, {}, {})))
  }

  /** `nodes[from].imports.add(to)` on a node that exists. */
  function AddImport(g: DependencyGraph, from: Path, to: Path): (r: DependencyGraph)
    requires g.nodes.Valid() && from in g.nodes.entries
    ensures r.nodes.Valid() && r.rootPath == g.rootPath
    ensures r.nodes.keys == g.nodes.keys && r.nodes.entries.Keys == g.nodes.entries.Keys
    ensures forall p, q :: HasEdge(r, p, q) <==> HasEdge(g, p, q) || (p == from && q == to)
    ensures forall q, p :: HasBackEdge(r, q, p) <==> HasBackEdge(g, q, p)
    ensures forall p, name :: HasExternal(r, p, name) <==> HasExternal(g, p, name)
    ensures forall p :: p in g.nodes.entries ==> r.nodes.entries[p].path == g.nodes.entries[p].path
  {
    var n := g.nodes.entries[from];
    g.(nodes := g.nodes.Put(from, n.(imports := n.imports + {to})))
  }

  /** `nodes[to].imported_by.add(from)` on a node that exists. */
  function AddImporter(g: DependencyGraph, to: Path, from: Path): (r: DependencyGraph)
    requires g.nodes.Valid() && to in g.nodes.entries
    ensures r.nodes.Valid() && r.rootPath == g.rootPath
    ensures r.nodes.keys == g.nodes.keys && r.nodes.entries.Keys == g.nodes.entries.Keys
    ensures forall p, q :: HasEdge(r, p, q) <==> HasEdge(g, p, q)
    ensures forall q, p :: HasBackEdge(r, q, p) <==> HasBackEdge(g, q, p) || (q == to && p == from)
    ensures forall p, name :: HasExternal(r, p, name) <==> HasExternal(g, p, name)
    ensures forall p :: p in g.nodes.entries ==> r.nodes.entries[p].path == g.nodes.entries[p].path
  {
    var m := g.nodes.entries[to];
    g.(nodes := g.nodes.Put(to, m.(importedBy := m.importedBy + {from})))
  }

  /** `add_dependency`: both files become nodes, then `to` joins the imports
      of `from` and `from` the importers of `to` (the same node when they are
      equal). */
  function AddDependency(g: DependencyGraph, from: Path, to: Path): (r: DependencyGraph)
    requires g.nodes.Valid()
    ensures r.nodes.Valid() && r.rootPath == g.rootPath
    ensures r.nodes.entries.Keys == g.nodes.entries.Keys + {from, to}
    ensures r.nodes.keys == g.nodes.keys + (if from in g.nodes.entries then [] else [from])
      + (if to in g.nodes.entries || to == from then [] else [to])
    ensures forall p, q :: HasEdge(r, p, q) <==> HasEdge(g, p, q) || (p == from && q == to)
    ensures forall q, p :: HasBackEdge(r, q, p) <==> HasBackEdge(g, q, p) || (q == to && p == from)
    ensures forall p, name :: HasExternal(r, p, name) <==> HasExternal(g, p, name)
    ensures forall p :: p in r.nodes.entries && p !in g.nodes.entries ==> r.nodes.entries[p].path == p
    ensures forall p :: p in g.nodes.entries ==> r.nodes.entries[p].path == g.nodes.entries[p].path
  {
    var g1 := AddFile(AddFile(g, from), to);
    AddFilesKeys(g, from, to);
    var g2 := AddImport(g1, from, to);
    AddImporter(g2, to, from)
  }

  /** Adding `from`, then `to`, appends each that is new. */
  lemma AddFilesKeys(g: DependencyGraph, from: Path, to: Path)
    requires g.nodes.Valid()
    ensures AddFile(AddFile(g, from), to).nodes.keys == g.nodes.keys
      + (if from in g.nodes.entries then [] else [from]) + (if to in g.nodes.entries || to == from then [] else [to])
  {
    assert to in AddFile(g, from).nodes.entries <==> to in g.nodes.entries || to == from;
  }

  /** `add_external`: `from` becomes a node and `name` joins its external
      imports. */
  function AddExternal(g: DependencyGraph, from: Path, name: string): (r: DependencyGraph)
    requires g.nodes.Valid()
    ensures r.nodes.Valid() && r.rootPath == g.rootPath
    ensures r.nodes.entries.Keys == g.nodes.entries.Keys + {from}
    ensures r.nodes.keys == g.nodes.keys + (if from in g.nodes.entries then [] else [from])
    ensures forall p, q :: HasEdge(r, p, q) <==> HasEdge(g, p, q)
    ensures forall q, p :: HasBackEdge(r, q, p) <==> HasBackEdge(g, q, p)
    ensures forall p, x :: HasExternal(r, p, x) <==> HasExternal(g, p, x) || (p == from && x == name)
    ensures forall p :: p in r.nodes.entries && p !in g.nodes.entries ==> r.nodes.entries[p].path == p
    ensures forall p :: p in g.nodes.entries ==> r.nodes.entries[p].path == g.nodes.entries[p].path
  {
    var g1 := AddFile(g, from);
    var n := g1.nodes.entries[from];
    g1.(nodes := g1.nodes.Put(from, n.(externalImports := n.externalImports + {name})))
  }

  /** Adding a file keeps the graph well formed. */
  lemma AddFileValid(g: DependencyGraph, p: Path)
    requires Valid(g)
    ensures Valid(AddFile(g, p))
  {
  }

  /** Adding an edge keeps the graph well formed: in particular the mirror
      between imports and importers survives. */
  lemma AddDependencyValid(g: DependencyGraph, from: Path, to: Path)
    requires Valid(g)
    ensures Valid(AddDependency(g, from, to))
  {
    EdgeAddedValid(g, AddDependency(g, from, to), from, to);
  }

  /** A graph that differs from a well-formed one by the nodes `from` and
      `to` and the edge between them, recorded both ways, is well formed. */
  lemma EdgeAddedValid(g: DependencyGraph, r: DependencyGraph, from: Path, to: Path)
    requires Valid(g) && r.nodes.Valid()
    requires r.nodes.entries.Keys == g.nodes.entries.Keys + {from, to}
    requires forall p, q :: HasEdge(r, p, q) <==> HasEdge(g, p, q) || (p == from && q == to)
    requires forall q, p :: HasBackEdge(r, q, p) <==> HasBackEdge(g, q, p) || (q == to && p == from)
    requires forall p :: p in r.nodes.entries && p !in g.nodes.entries ==> r.nodes.entries[p].path == p
    requires forall p :: p in g.nodes.entries ==> r.nodes.entries[p].path == g.nodes.entries[p].path
    ensures Valid(r)
  {
    assert forall p :: p in r.nodes.entries ==> r.nodes.entries[p].path == p;
    assert forall p, q :: HasEdge(r, p, q) ==> q in r.nodes.entries;
    assert forall q, p :: HasBackEdge(r, q, p) ==> p in r.nodes.entries;
  }

  /** Adding an external import keeps the graph well formed. */
  lemma AddExternalValid(g: DependencyGraph, from: Path, name: string)
    requires Valid(g)
    ensures Valid(AddExternal(g, from, name))
  {
  }

  /** Recording the same import twice changes nothing the second time. */
  lemma AddDependencyIdempotent(g: DependencyGraph, from: Path, to: Path)
    requires g.nodes.Valid()
    ensures AddDependency(AddDependency(g, from, to), from, to) == AddDependency(g, from, to)
  {
    var r := AddDependency(g, from, to);
    assert AddFile(AddFile(r, from), to) == r;
    assert HasEdge(r, from, to) && HasBackEdge(r, to, from);
    var n := r.nodes.entries[from];
    assert n.(imports := n.imports + {to}) == n;
    PutExisting(r.nodes, from, n);
    assert AddImport(r, from, to) == r;
    var m := r.nodes.entries[to];
    assert m.(importedBy := m.importedBy + {from}) == m;
    PutExisting(r.nodes, to, m);
    assert AddImporter(r, to, from) == r;
  }

  /** Storing the value a key already has leaves a dictionary unchanged. */
  lemma PutExisting(d: Dict<Path, Node>, k: Path, v: Node)
    requires d.Valid() && k in d.entries && d.entries[k] == v
    ensures d.Put(k, v) == d
  {
  }

  /** Recording the same external import twice changes nothing the second
      time. */
  lemma AddExternalIdempotent(g: DependencyGraph, from: Path, name: string)
    requires g.nodes.Valid()
    ensures AddExternal(AddExternal(g, from, name), from, name) == AddExternal(g, from, name)
  {
    var r := AddExternal(g, from, name);
    assert AddFile(r, from) == r;
    var n := r.nodes.entries[from];
    assert HasExternal(r, from, name);
    assert n.(externalImports := n.externalImports + {name}) == n;
    PutExisting(r.nodes, from, n);
  }

  /** After `add_dependency(from, to)` a file imports what it imported
      before, and `from` also imports `to`. */
  lemma AddDependencySucc(g: DependencyGraph, from: Path, to: Path)
    requires g.nodes.Valid()
    ensures forall x, y :: y in Succ(AddDependency(g, from, to), x) <==> y in Succ(g, x) || (x == from && y == to)
  {
    var r := AddDependency(g, from, to);
    forall x, y ensures y in Succ(r, x) <==> y in Succ(g, x) || (x == from && y == to) {
      assert y in Succ(r, x) <==> HasEdge(r, x, y);
      assert y in Succ(g, x) <==> HasEdge(g, x, y);
    }
  }
}
