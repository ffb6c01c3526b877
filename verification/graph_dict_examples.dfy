/** The graph of the serialization unit test: root `/project`, `a.py`
    imports `b.py` and the external module `requests`. */
module DictExamples {
  import opened Wrappers
  import opened Strings
  import opened Paths
  import opened Dicts
  import opened Graphs
  import opened Stats
  import opened GraphDicts
  import opened CycleExamples
  import opened StatsExamples

  const Root: Path := ["project"]

  ghost predicate DictShape(g: DependencyGraph, a: Path, b: Path) {
    && (forall x :: x in g.nodes.entries <==> x == a || x == b)
    && (forall x, y :: y in Succ(g, x) <==> x == a && y == b)
    && (forall x, n :: n in Externals(g, x) <==> x == a && n == "requests")
  }

  /** `root_path = root`, `add_dependency(a, b)`, `add_external(a, "requests")`. */
  function DictGraph(a: Path, b: Path, root: Path): DependencyGraph {
    AddExternal(AddDependency(DependencyGraph(Empty(), Some(root)), a, b), a, "requests")
  }

  lemma DictGraphShape(a: Path, b: Path, root: Path)
    requires a != b
    ensures DictShape(DictGraph(a, b, root), a, b)
    ensures DictGraph(a, b, root).nodes.Valid() && DictGraph(a, b, root).rootPath == Some(root)
  {
    var g0 := DependencyGraph(Empty(), Some(root));
    var g1 := AddDependency(g0, a, b);
    AddDependencySucc(g0, a, b);
    DependencyNodes(g0, a, b);
    AddExternalSucc(g1, a, "requests");
    AddExternalNodes(g1, a, "requests");
    AddExternalExternals(g1, a, "requests");
  }

  /** One edge, from the printed `a` to the printed `b`. */
  lemma DictEdges(g: DependencyGraph, a: Path, b: Path, sa: string, sb: string, edges: seq<EdgeEntry>)
    requires a != b && DictShape(g, a, b)
    requires Display(a, g.rootPath) == Some(sa) && Display(b, g.rootPath) == Some(sb)
    requires EdgesDescribed(g, edges)
    ensures edges == [EdgeEntry(sa, sb)]
  {
    assert Edges(g) == {(a, b)} by {
      forall e | e in Edges(g) ensures e == (a, b) {
        assert e.1 in Succ(g, e.0);
      }
      assert b in Succ(g, a);
    }
    assert |edges| == 1;
    assert edges[0] in edges;
    var p, q :| HasEdge(g, p, q) && Display(p, g.rootPath) == Some(edges[0].from) && Display(q, g.rootPath) == Some(edges[0].to);
    assert q in Succ(g, p);
  }

  /** A strictly sorted list of one name is that name alone. */
  lemma SortedSingle(names: seq<string>, n: string)
    requires StrictlySorted(names) && (set m | m in names) == {n}
    ensures names == [n]
  {
    var members := set m | m in names;
    assert n in members;
    assert |names| > 0;
    assert names[0] in members;
    assert names[0] in {n};
    if |names| > 1 {
      assert names[1] in members;
      assert names[1] in {n};
      assert Less(names[0], names[1]);
      LessIrreflexive(n);
    }
  }

  /** Two files that print differently each print alone. */
  lemma ShapePrintsAlone(g: DependencyGraph, a: Path, b: Path)
    requires DictShape(g, a, b) && Display(a, g.rootPath) != Display(b, g.rootPath)
    ensures PrintsAlone(g, a) && PrintsAlone(g, b)
  {
  }

  /** Both printed names are node entries. */
  lemma DictNodes(g: DependencyGraph, a: Path, b: Path, sa: string, sb: string, nodes: Dict<string, NodeCounts>)
    requires DictShape(g, a, b) && sa != sb
    requires Display(a, g.rootPath) == Some(sa) && Display(b, g.rootPath) == Some(sb)
    requires forall p :: p in g.nodes.entries ==> Display(p, g.rootPath).Some?
    requires NodesDescribed(g, nodes)
    ensures sa in nodes.entries && sb in nodes.entries
  {
    assert a in g.nodes.entries && b in g.nodes.entries;
  }

  /** `a`'s external list is `["requests"]`. */
  lemma DictExternal(g: DependencyGraph, a: Path, b: Path, sa: string, sb: string, ext: Dict<string, seq<string>>)
    requires DictShape(g, a, b) && sa != sb
    requires Display(a, g.rootPath) == Some(sa) && Display(b, g.rootPath) == Some(sb)
    requires forall p :: p in g.nodes.entries ==> Display(p, g.rootPath).Some?
    requires ExternalDescribed(g, ext)
    ensures sa in ext.entries && ext.entries[sa] == ["requests"]
  {
    ShapePrintsAlone(g, a, b);
    assert a in g.nodes.entries;
    assert Externals(g, a) == {"requests"};
    assert NamesOk(g, a, ext.entries[sa]);
    SortedSingle(ext.entries[sa], "requests");
  }

  /** Below `/project`, `a.py` prints as `a.py` and `b.py` as `b.py`. */
  lemma TestDisplays()
    ensures A != B
    ensures Display(A, Some(Root)) == Some("a.py") && Display(B, Some(Root)) == Some("b.py")
  {
    assert A[1][0] == 'a' && B[1][0] == 'b';
    assert Root <= A && A[|Root|..] == ["a.py"];
    assert Root <= B && B[|Root|..] == ["b.py"];
  }

  /** When both files print, the graph is printable. */
  lemma ShapePrintable(g: DependencyGraph, a: Path, b: Path)
    requires DictShape(g, a, b)
    requires Display(a, g.rootPath).Some? && Display(b, g.rootPath).Some?
    ensures Printable(g)
  {
    forall p, q | HasEdge(g, p, q) ensures Display(q, g.rootPath).Some? {
      assert q in Succ(g, p);
    }
  }

  /** `to_dict` on the graph of the unit test. */
  method ToDictOnTest() returns (r: Option<GraphDict>)
    ensures r.Some?
    ensures "a.py" in r.value.nodes.entries && "b.py" in r.value.nodes.entries
    ensures r.value.edges == [EdgeEntry("a.py", "b.py")]
    ensures "a.py" in r.value.external.entries && r.value.external.entries["a.py"] == ["requests"]
  {
    var g := DictGraph(A, B, Root);
    TestDisplays();
    DictGraphShape(A, B, Root);
    ShapePrintable(g, A, B);
    r := ToDict(g);
    DictEdges(g, A, B, "a.py", "b.py", r.value.edges);
    DictNodes(g, A, B, "a.py", "b.py", r.value.nodes);
    DictExternal(g, A, B, "a.py", "b.py", r.value.external);
  }
}
