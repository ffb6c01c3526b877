/** `to_dot` of fastdeps/output.py: the graph as Graphviz DOT text. One
    coloured box per node in insertion order, one arrow per import edge,
    and, on request, one dashed ellipse and one dashed arrow per external
    import. Every path is printed relative to the graph root when one is
    set; a path outside the root makes `relative_to` raise, modelled as
    `None`. */
module Dot {
  import opened Wrappers
  import opened Strings
  import opened Paths
  import opened Graphs
  import opened Stats
  import opened GraphDicts
  import opened Seqs

  // ----- node colours -----

  /** Lines 39-50: leaves green, roots blue, files imported by more than
      three others yellow, the rest white. */
  function Color(n: Node): (c: string)
    ensures c == "lightgreen" <==> n.importedBy != {} && n.imports == {}
    ensures c == "lightblue" <==> n.imports != {} && n.importedBy == {}
    ensures c == "yellow" <==> n.imports != {} && |n.importedBy| > 3
    ensures c == "white" <==> (n.imports == {} <==> n.importedBy == {}) && |n.importedBy| <= 3
  {
    if n.importedBy != {} && n.imports == {} then "lightgreen"
    else if n.imports != {} && n.importedBy == {} then "lightblue"
    else if |n.importedBy| > 3 then "yellow"
    else "white"
  }

  /** In a well-formed graph the colour reads off the import edges: a leaf
      is imported by some node and imports none, a root the reverse. */
  lemma ColorInGraph(g: DependencyGraph, p: Path)
    requires Valid(g) && p in g.nodes.entries
    ensures Color(g.nodes.entries[p]) == "lightgreen" <==> Succ(g, p) == {} && Importers(g, p) != {}
    ensures Color(g.nodes.entries[p]) == "lightblue" <==> Succ(g, p) != {} && Importers(g, p) == {}
    ensures Color(g.nodes.entries[p]) == "yellow" <==> Succ(g, p) != {} && |Importers(g, p)| > 3
  {
    ImportersMirror(g, p);
  }

  // ----- labels -----

  /** Line 37: every `/` of the printed path becomes the two characters
      `\n`, which Graphviz shows as a line break. */
  function Label(name: string): (r: string)
    ensures '/' !in r
  {
    ReplaceChar(name, '/', "\\n")
  }

  /** Reading a label back: each `\n` pair stands for a `/`. */
  function Unescape(s: string): string
    decreases |s|
  {
    if |s| == 0 then ""
    else if |s| >= 2 && s[0] == '\\' && s[1] == 'n' then "/" + Unescape(s[2..])
    else [s[0]] + Unescape(s[1..])
  }

  lemma ReplaceCharCons(s: string, c: char, repl: string)
    requires |s| > 0
    ensures ReplaceChar(s, c, repl) == (if s[0] == c then repl else [s[0]]) + ReplaceChar(s[1..], c, repl)
  {
  }

  /** A printed path without backslashes comes back from its label. */
  lemma {:induction false} UnescapeLabel(name: string)
    requires '\\' !in name
    ensures Unescape(Label(name)) == name
    decreases |name|
  {
    if |name| > 0 {
      var rest := Label(name[1..]);
      ReplaceCharCons(name, '/', "\\n");
      UnescapeLabel(name[1..]);
      if name[0] == '/' {
        assert Label(name) == "\\n" + rest;
        assert Label(name)[2..] == rest;
      } else {
        assert Label(name) == [name[0]] + rest;
        assert Label(name)[1..] == rest;
      }
      assert [name[0]] + name[1..] == name;
    }
  }

  /** Replacing a character with text free of `x` leaves a string free of
      `x` free of it. */
  lemma {:induction false} ReplaceCharAvoids(s: string, c: char, repl: string, x: char)
    requires x !in s && x !in repl
    ensures x !in ReplaceChar(s, c, repl)
    decreases |s|
  {
    if |s| > 0 {
      ReplaceCharCons(s, c, repl);
      ReplaceCharAvoids(s[1..], c, repl, x);
    }
  }

  // ----- reading quoted fields back -----

  /** The text before the first `"` of `s` and the text after it. */
  function CutQuote(s: string): (r: Option<(string, string)>)
    ensures r.None? <==> '"' !in s
    ensures r.Some? ==> '"' !in r.value.0 && s == r.value.0 + "\"" + r.value.1
    decreases |s|
  {
    if |s| == 0 then None
    else if s[0] == '"' then Some(("", s[1..]))
    else
      match CutQuote(s[1..])
      case None => None
      case Some((a, b)) => Some(([s[0]] + a, b))
  }

  /** The first `"` after a quote-free prefix is the one following it. */
  lemma {:induction false} CutQuoteAt(a: string, rest: string)
    requires '"' !in a
    ensures CutQuote(a + "\"" + rest) == Some((a, rest))
    decreases |a|
  {
    var s := a + "\"" + rest;
    if |a| == 0 {
      assert s == "\"" + rest && s[1..] == rest;
    } else {
      assert s[0] == a[0] && s[1..] == a[1..] + "\"" + rest;
      CutQuoteAt(a[1..], rest);
      assert [a[0]] + a[1..] == a;
    }
  }

  /** After `prefix`, the quoted text up to the next `"` and what follows. */
  function Field(s: string, prefix: string): Option<(string, string)> {
    if StartsWith(s, prefix) then CutQuote(s[|prefix|..]) else None
  }

  lemma FieldAt(prefix: string, a: string, rest: string)
    requires '"' !in a
    ensures Field(prefix + a + "\"" + rest, prefix) == Some((a, rest))
  {
    var s := prefix + a + "\"" + rest;
    assert s[|prefix|..] == a + "\"" + rest;
    CutQuoteAt(a, rest);
  }

  /** A field read back is the text between `prefix` and the quote. */
  lemma FieldShape(s: string, prefix: string)
    requires Field(s, prefix).Some?
    ensures var f := Field(s, prefix).value;
      '"' !in f.0 && s == prefix + f.0 + "\"" + f.1
  {
    var f := Field(s, prefix).value;
    assert s == prefix + s[|prefix|..];
  }

  // ----- the four kinds of line -----

  /** Line 52: the box of a node. */
  function NodeLine(name: string, color: string): string {
    "    \"" + name + "\"" + (" [label=\"" + Label(name) + "\"" + (", fillcolor=\"" + color + "\"" + ", style=filled];"))
  }

  /** Line 61: the arrow of an import edge. */
  function EdgeLine(from: string, to: string): string {
    "    \"" + from + "\"" + (" -> \"" + to + "\"" + ";")
  }

  /** Line 72: the node id of an external module, dots turned into
      underscores. */
  function ExternalId(name: string): (r: string)
    ensures '.' !in r
  {
    "ext_" + ReplaceChar(name, '.', "_")
  }

  /** Line 73: the dashed ellipse of an external module. */
  function ExternalNodeLine(name: string): string {
    "    " + ExternalId(name) + " [label=\"" + name + "\"" + ", shape=ellipse, style=dashed];"
  }

  /** Line 74: the dashed arrow to an external module. */
  function ExternalEdgeLine(from: string, name: string): string {
    "    \"" + from + "\"" + " -> " + ExternalId(name) + " [style=dashed];"
  }

  /** Reads an edge line back into its two printed paths. */
  function ParseEdgeLine(line: string): Option<(string, string)> {
    match Field(line, "    \"")
    case None => None
    case Some((from, r1)) =>
      match Field(r1, " -> \"")
      case None => None
      case Some((to, r2)) => if r2 == ";" then Some((from, to)) else None
  }

  /** Edge lines of quote-free paths read back to their paths. */
  lemma EdgeLineRoundTrip(from: string, to: string)
    requires '"' !in from && '"' !in to
    ensures ParseEdgeLine(EdgeLine(from, to)) == Some((from, to))
  {
    FieldAt("    \"", from, " -> \"" + to + "\"" + ";");
    FieldAt(" -> \"", to, ";");
  }

  /** Only edge lines read back as edges. */
  lemma ParsedEdgeLine(line: string)
    requires ParseEdgeLine(line).Some?
    ensures var e := ParseEdgeLine(line).value;
      '"' !in e.0 && '"' !in e.1 && line == EdgeLine(e.0, e.1)
  {
    var f1 := Field(line, "    \"").value;
    FieldShape(line, "    \"");
    var f2 := Field(f1.1, " -> \"").value;
    FieldShape(f1.1, " -> \"");
  }

  /** Reads a node line back into its printed path, label and colour. */
  function ParseNodeLine(line: string): Option<(string, string, string)> {
    match Field(line, "    \"")
    case None => None
    case Some((name, r1)) =>
      match Field(r1, " [label=\"")
      case None => None
      case Some((text, r2)) =>
        match Field(r2, ", fillcolor=\"")
        case None => None
        case Some((color, r3)) =>
          if r3 == ", style=filled];" then Some((name, text, color)) else None
  }

  /** Node lines of quote-free paths read back to the path, its label and
      the colour. */
  lemma NodeLineRoundTrip(name: string, color: string)
    requires '"' !in name && '"' !in color
    ensures ParseNodeLine(NodeLine(name, color)) == Some((name, Label(name), color))
  {
    ReplaceCharAvoids(name, '/', "\\n", '"');
    var t3 := ", style=filled];";
    var t2 := ", fillcolor=\"" + color + "\"" + t3;
    var t1 := " [label=\"" + Label(name) + "\"" + t2;
    FieldAt("    \"", name, t1);
    FieldAt(" [label=\"", Label(name), t2);
    FieldAt(", fillcolor=\"", color, t3);
  }

  /** Two external modules whose names differ only in dots and underscores
      share one node id, so their ellipses merge. */
  lemma ExternalIdCollision()
    ensures "a.b" != "a_b" && ExternalId("a.b") == ExternalId("a_b")
  {
    assert ReplaceChar("a.b", '.', "_") == "a_b";
    assert ReplaceChar("a_b", '.', "_") == "a_b";
  }

  lemma ReplaceCharAt(s: string, c: char, d: char, i: nat)
    requires i < |s|
    ensures |ReplaceChar(s, c, [d])| == |s|
    ensures ReplaceChar(s, c, [d])[i] == if s[i] == c then d else s[i]
    decreases |s|
  {
    ReplaceCharCons(s, c, [d]);
    if i > 0 {
      ReplaceCharAt(s[1..], c, d, i - 1);
    }
  }

  /** Names without underscores keep distinct node ids. */
  lemma ExternalIdInjective(a: string, b: string)
    requires '_' !in a && '_' !in b
    requires ExternalId(a) == ExternalId(b)
    ensures a == b
  {
    var ra := ReplaceChar(a, '.', "_");
    var rb := ReplaceChar(b, '.', "_");
    assert ra == ExternalId(a)[4..] == ExternalId(b)[4..] == rb;
    forall i | 0 <= i < |a| ensures a[i] == b[i] {
      ReplaceCharAt(a, '.', '_', i);
      ReplaceCharAt(b, '.', '_', i);
    }
  }

  // ----- the document -----

  /** The first four lines: the graph header, the left-to-right layout and
      box-shaped nodes, then a blank line. */
  const Header: seq<string> := ["digraph dependencies {", "    rankdir=\"LR\";", "    node [shape=box];", ""]

  /** One dashed arrow: the printed importing file and the module name. */
  datatype ExternalEntry = ExternalEntry(from: string, name: string)

  /** What `to_dot` writes, section by section: the node boxes, the import
      edges and the external imports. */
  datatype DotDoc = DotDoc(nodeLines: seq<string>, edges: seq<EdgeEntry>, externals: seq<ExternalEntry>)

  /** The colour of `p`; a path that is not a node has no neighbours. */
  function ColorOf(g: DependencyGraph, p: Path): (c: string)
    ensures c in {"lightgreen", "lightblue", "yellow", "white"}
  {
    if p in g.nodes.entries then Color(g.nodes.entries[p]) else Color(Node(p, {}, {}, {}))
  }

  /** One box per node, in insertion order. */
  ghost predicate BoxesListed(g: DependencyGraph, lines: seq<string>) {
    && |lines| == |g.nodes.keys|
    && forall j :: 0 <= j < |lines| ==> lines[j] == NodeLine(NameAt(g, j), ColorOf(g, g.nodes.keys[j]))
  }

  /** One external entry per (file, external module) pair. */
  ghost predicate ExternalsDescribed(g: DependencyGraph, ext: seq<ExternalEntry>) {
    && |ext| == |ExternalPairs(g)|
    && forall e :: e in ext <==> exists p :: HasExternal(g, p, e.name) && Display(p, g.rootPath) == Some(e.from)
  }

  /** `block` holds one entry from `from` per name of `names`, and nothing
      else. */
  ghost predicate ExternalsFrom(from: string, names: set<string>, block: seq<ExternalEntry>) {
    |block| == |names| && forall e :: e in block <==> e.from == from && e.name in names
  }

  /** Node `j` wrote `block`: its external imports, from its printed name. */
  ghost predicate ExternalBlock(g: DependencyGraph, j: int, block: seq<ExternalEntry>) {
    0 <= j < |g.nodes.keys| && ExternalsFrom(NameAt(g, j), Externals(g, g.nodes.keys[j]), block)
  }

  /** The blocks the external entries are made of, node by node. */
  ghost function ExternalBlocks(g: DependencyGraph): (nat, seq<ExternalEntry>) -> bool {
    (j, block) => ExternalBlock(g, j, block)
  }

  /** The external entries are node 0's block, then node 1's, and so on in
      insertion order. */
  ghost predicate ExternalsByNode(g: DependencyGraph, ext: seq<ExternalEntry>) {
    Grouped(|g.nodes.keys|, ExternalBlocks(g), ext)
  }

  /** `doc` is the document of `g`. */
  ghost predicate DescribesDot(g: DependencyGraph, doc: DotDoc) {
    && BoxesListed(g, doc.nodeLines)
    && EdgesDescribed(g, doc.edges) && EdgesByNode(g, doc.edges)
    && ExternalsDescribed(g, doc.externals) && ExternalsByNode(g, doc.externals)
  }

  /** Lines 34-52: one box per node in insertion order; `None` when a node
      lies outside the root. */
  method NodeLines(g: DependencyGraph) returns (r: Option<seq<string>>)
    requires g.nodes.Valid()
    ensures r.None? <==> exists p :: p in g.nodes.entries && Display(p, g.rootPath).None?
    ensures r.Some? ==> BoxesListed(g, r.value)
  {
    var lines := [];
    for i := 0 to |g.nodes.keys|
      invariant |lines| == i && ShownUpTo(g, i)
      invariant forall j :: 0 <= j < i ==> lines[j] == NodeLine(NameAt(g, j), ColorOf(g, g.nodes.keys[j]))
    {
      var p := g.nodes.keys[i];
      var shown := Display(p, g.rootPath);
      if shown.None? {
        NodeListed(g, i);
        return None;
      }
      lines := lines + [NodeLine(shown.value, ColorOf(g, p))];
    }
    ShownComplete(g);
    return Some(lines);
  }

  /** Lines 56-61: one arrow per import, node by node; `None` when an
      imported file lies outside the root. */
  method EdgeEntries(g: DependencyGraph) returns (r: Option<seq<EdgeEntry>>)
    requires g.nodes.Valid()
    requires forall p :: p in g.nodes.entries ==> Display(p, g.rootPath).Some?
    ensures r.None? <==> !Printable(g)
    ensures r.Some? ==> EdgesDescribed(g, r.value) && EdgesByNode(g, r.value)
  {
    var edges := [];
    assert g.nodes.keys[..0] == [];
    GroupedStart(EdgeBlocks(g));
    for i := 0 to |g.nodes.keys|
      invariant EdgesUpTo(g, i, edges) && Grouped(i, EdgeBlocks(g), edges)
    {
      NodeListed(g, i);
      var next := NodeEdges(g, i, edges);
      if next.None? {
        return None;
      }
      edges := next.value;
    }
    EdgesComplete(g, edges);
    return Some(edges);
  }

  /** `for ext_module in node.external_imports`: one entry from `from` per
      name left in `todo`, appended after `acc` in the set's iteration
      order. */
  method AddExternals(from: string, todo: set<string>, acc: seq<ExternalEntry>) returns (r: seq<ExternalEntry>)
    ensures |r| == |acc| + |todo|
    ensures forall e :: e in r <==> e in acc || (e.from == from && e.name in todo)
    ensures acc <= r && ExternalsFrom(from, todo, r[|acc|..])
    decreases |todo|
  {
    if todo == {} {
      return acc;
    }
    var n :| n in todo;
    var first := ExternalEntry(from, n);
    r := AddExternals(from, todo - {n}, acc + [first]);
    assert r[|acc|..] == [first] + r[|acc| + 1..];
  }

  /** The entries `AddExternals` appended for node `i` are its block. */
  lemma ExternalBlockStep(g: DependencyGraph, i: nat, ext: seq<ExternalEntry>, ext': seq<ExternalEntry>)
    requires i < |g.nodes.keys| && Grouped(i, ExternalBlocks(g), ext)
    requires Display(g.nodes.keys[i], g.rootPath).Some?
    requires ext <= ext'
    requires ExternalsFrom(Display(g.nodes.keys[i], g.rootPath).value, Externals(g, g.nodes.keys[i]), ext'[|ext|..])
    ensures Grouped(i + 1, ExternalBlocks(g), ext')
  {
    assert ExternalBlocks(g)(i, ext'[|ext|..]);
    GroupedStep(i, ExternalBlocks(g), ext, ext');
  }

  /** `e` is an external import of one of the first `i` nodes. */
  ghost predicate ExternalUpTo(g: DependencyGraph, i: nat, e: ExternalEntry)
    requires i <= |g.nodes.keys|
  {
    exists j :: 0 <= j < i && Display(g.nodes.keys[j], g.rootPath) == Some(e.from) && e.name in Externals(g, g.nodes.keys[j])
  }

  /** The external entries after the first `i` nodes. */
  ghost predicate ExternalsUpTo(g: DependencyGraph, i: nat, ext: seq<ExternalEntry>)
    requires i <= |g.nodes.keys|
  {
    && |ext| == SumSizes(g.nodes.keys[..i], p => Externals(g, p))
    && forall e :: e in ext <==> ExternalUpTo(g, i, e)
  }

  lemma ExternalsStep(g: DependencyGraph, i: nat, ext: seq<ExternalEntry>, name: string, ext': seq<ExternalEntry>)
    requires i < |g.nodes.keys| && ExternalsUpTo(g, i, ext)
    requires Display(g.nodes.keys[i], g.rootPath) == Some(name)
    requires |ext'| == |ext| + |Externals(g, g.nodes.keys[i])|
    requires forall e :: e in ext' <==> e in ext || (e.from == name && e.name in Externals(g, g.nodes.keys[i]))
    ensures ExternalsUpTo(g, i + 1, ext')
  {
    var keys := g.nodes.keys;
    assert keys[..i + 1] == keys[..i] + [keys[i]];
    SumSizesAppend(keys[..i], keys[i], p => Externals(g, p));
    forall e ensures e in ext' <==> ExternalUpTo(g, i + 1, e) {
      if ExternalUpTo(g, i + 1, e) {
        var j :| 0 <= j < i + 1 && Display(keys[j], g.rootPath) == Some(e.from) && e.name in Externals(g, keys[j]);
        if j < i {
          assert ExternalUpTo(g, i, e);
        }
      }
    }
  }

  /** After the last node, the entries are the external pairs. */
  lemma ExternalsComplete(g: DependencyGraph, ext: seq<ExternalEntry>)
    requires g.nodes.Valid() && ExternalsUpTo(g, |g.nodes.keys|, ext)
    ensures ExternalsDescribed(g, ext)
  {
    var keys := g.nodes.keys;
    assert keys[..|keys|] == keys;
    ExternalCountsPairs(g);
    forall e ensures e in ext <==> exists p :: HasExternal(g, p, e.name) && Display(p, g.rootPath) == Some(e.from) {
      if e in ext {
        var j :| 0 <= j < |keys| && Display(keys[j], g.rootPath) == Some(e.from) && e.name in Externals(g, keys[j]);
        NodeListed(g, j);
        assert HasExternal(g, keys[j], e.name);
      }
      if p :| HasExternal(g, p, e.name) && Display(p, g.rootPath) == Some(e.from) {
        var j := NodeIndex(g, p);
        assert ExternalUpTo(g, |keys|, e);
      }
    }
  }

  /** Lines 67-74: one entry per external import, node by node. */
  method ExternalEntries(g: DependencyGraph) returns (r: seq<ExternalEntry>)
    requires g.nodes.Valid()
    requires forall p :: p in g.nodes.entries ==> Display(p, g.rootPath).Some?
    ensures ExternalsDescribed(g, r) && ExternalsByNode(g, r)
  {
    var ext := [];
    assert g.nodes.keys[..0] == [];
    GroupedStart(ExternalBlocks(g));
    for i := 0 to |g.nodes.keys|
      invariant ExternalsUpTo(g, i, ext) && Grouped(i, ExternalBlocks(g), ext)
    {
      var p := g.nodes.keys[i];
      NodeListed(g, i);
      var name := Display(p, g.rootPath).value;
      var next := AddExternals(name, Externals(g, p), ext);
      ExternalsStep(g, i, ext, name, next);
      ExternalBlockStep(g, i, ext, next);
      ext := next;
    }
    ExternalsComplete(g, ext);
    return ext;
  }

  /** The document of `g`; `None` exactly when some node or imported file
      lies outside the root. */
  method Render(g: DependencyGraph) returns (r: Option<DotDoc>)
    requires g.nodes.Valid()
    ensures r.None? <==> !Printable(g)
    ensures r.Some? ==> DescribesDot(g, r.value)
  {
    var boxes := NodeLines(g);
    if boxes.None? {
      return None;
    }
    var edges := EdgeEntries(g);
    if edges.None? {
      return None;
    }
    var ext := ExternalEntries(g);
    return Some(DotDoc(boxes.value, edges.value, ext));
  }

  // ----- the text -----

  /** The arrow lines of the edge entries, in order. */
  function EdgeLines(edges: seq<EdgeEntry>): (r: seq<string>)
    ensures |r| == |edges|
    ensures forall k :: 0 <= k < |edges| ==> r[k] == EdgeLine(edges[k].from, edges[k].to)
    decreases |edges|
  {
    if |edges| == 0 then [] else [EdgeLine(edges[0].from, edges[0].to)] + EdgeLines(edges[1..])
  }

  /** For each external entry, its ellipse followed by its arrow. */
  function ExternalLines(ext: seq<ExternalEntry>): (r: seq<string>)
    ensures |r| == 2 * |ext|
    ensures forall line :: line in r <==> exists e :: e in ext && line in PairLines(e)
    decreases |ext|
  {
    if |ext| == 0 then []
    else
      var rest := ExternalLines(ext[1..]);
      assert forall e :: e in ext <==> e == ext[0] || e in ext[1..];
      PairLines(ext[0]) + rest
  }

  /** The ellipse and the arrow of one external entry. */
  function PairLines(e: ExternalEntry): seq<string> {
    [ExternalNodeLine(e.name), ExternalEdgeLine(e.from, e.name)]
  }

  /** Lines 28-77: the header, the boxes, a blank line, the arrows, the
      external section when asked for, and the closing brace. */
  function Lines(doc: DotDoc, showExternal: bool): seq<string> {
    Header + doc.nodeLines + [""] + EdgeLines(doc.edges)
      + (if showExternal then ["", "    // External dependencies"] + ExternalLines(doc.externals) else [])
      + ["}"]
  }

  /** `"\n".join(lines)`: the text of the document. */
  function Text(doc: DotDoc, showExternal: bool): string {
    Join(Lines(doc, showExternal), '\n')
  }

  /** `to_dot`: `None` exactly when some node or imported file lies outside
      the root; otherwise the text of the graph's document. */
  method ToDot(g: DependencyGraph, showExternal: bool) returns (r: Option<string>)
    requires g.nodes.Valid()
    ensures r.None? <==> !Printable(g)
    ensures r.Some? ==> exists doc :: DescribesDot(g, doc) && r.value == Text(doc, showExternal)
  {
    var doc := Render(g);
    if doc.None? {
      return None;
    }
    return Some(Text(doc.value, showExternal));
  }

  // ----- what the text shows -----

  /** Every node's box is drawn, with its printed path and its colour. */
  lemma BoxDrawn(g: DependencyGraph, doc: DotDoc, showExternal: bool, p: Path)
    requires g.nodes.Valid() && DescribesDot(g, doc)
    requires p in g.nodes.entries && Display(p, g.rootPath).Some?
    ensures NodeLine(Display(p, g.rootPath).value, Color(g.nodes.entries[p])) in Lines(doc, showExternal)
  {
    var j := NodeIndex(g, p);
    assert doc.nodeLines[j] in doc.nodeLines;
  }

  /** Every import edge is drawn as an arrow between the printed paths. */
  lemma EdgeDrawn(g: DependencyGraph, doc: DotDoc, showExternal: bool, p: Path, q: Path)
    requires DescribesDot(g, doc) && Printable(g) && HasEdge(g, p, q)
    ensures EdgeLine(Display(p, g.rootPath).value, Display(q, g.rootPath).value) in Lines(doc, showExternal)
  {
    var e := EdgeEntry(Display(p, g.rootPath).value, Display(q, g.rootPath).value);
    assert e in doc.edges;
    var k :| 0 <= k < |doc.edges| && doc.edges[k] == e;
    assert EdgeLines(doc.edges)[k] in EdgeLines(doc.edges);
  }

  /** With `show_external`, every external import gets its ellipse and its
      dashed arrow. */
  lemma ExternalDrawn(g: DependencyGraph, doc: DotDoc, p: Path, name: string)
    requires DescribesDot(g, doc) && HasExternal(g, p, name) && Display(p, g.rootPath).Some?
    ensures ExternalNodeLine(name) in Lines(doc, true)
    ensures ExternalEdgeLine(Display(p, g.rootPath).value, name) in Lines(doc, true)
  {
    var e := ExternalEntry(Display(p, g.rootPath).value, name);
    assert e in doc.externals;
    assert ExternalNodeLine(name) in PairLines(e);
    assert ExternalEdgeLine(e.from, name) in PairLines(e);
  }

  /** Six fixed lines, one per node and one per edge; with `show_external`
      two more fixed lines and two per external import. */
  lemma LineCount(g: DependencyGraph, doc: DotDoc)
    requires DescribesDot(g, doc)
    ensures |Lines(doc, false)| == 6 + |g.nodes.keys| + |Edges(g)|
    ensures |Lines(doc, true)| == 8 + |g.nodes.keys| + |Edges(g)| + 2 * |ExternalPairs(g)|
  {
  }

  /** The empty graph's document, with no boxes, arrows or external
      entries, describes it: six lines, or eight with the external
      section. */
  lemma LineCountEmpty()
    ensures DescribesDot(EmptyGraph(), DotDoc([], [], []))
    ensures |Lines(DotDoc([], [], []), false)| == 6 && |Lines(DotDoc([], [], []), true)| == 8
  {
    var g := EmptyGraph();
    GroupedStart(EdgeBlocks(g));
    GroupedStart(ExternalBlocks(g));
    DependenciesCountEdges(g);
    ExternalCountsPairs(g);
    LineCount(g, DotDoc([], [], []));
  }

  /** No printed node, imported file or external name holds a line break. */
  ghost predicate NoLineBreaks(g: DependencyGraph) {
    && (forall p :: p in g.nodes.entries && Display(p, g.rootPath).Some? ==> '\n' !in Display(p, g.rootPath).value)
    && (forall p, q :: HasEdge(g, p, q) && Display(q, g.rootPath).Some? ==> '\n' !in Display(q, g.rootPath).value)
    && (forall p, n :: HasExternal(g, p, n) ==> '\n' !in n)
  }

  lemma NodeLineFree(name: string, color: string)
    requires '\n' !in name && '\n' !in color
    ensures '\n' !in NodeLine(name, color)
  {
    ReplaceCharAvoids(name, '/', "\\n", '\n');
    BoxFree(name, color, Label(name));
  }

  lemma BoxFree(name: string, color: string, text: string)
    requires '\n' !in name && '\n' !in color && '\n' !in text
    ensures '\n' !in "    \"" + name + "\"" + (" [label=\"" + text + "\"" + (", fillcolor=\"" + color + "\"" + ", style=filled];"))
  {
    var t3 := ", style=filled];";
    assert '\n' !in t3;
  }

  lemma ExternalLinesFree(from: string, name: string)
    requires '\n' !in from && '\n' !in name
    ensures '\n' !in ExternalNodeLine(name) && '\n' !in ExternalEdgeLine(from, name)
  {
    ReplaceCharAvoids(name, '.', "_", '\n');
    EllipseFree(from, name, ExternalId(name));
  }

  lemma EllipseFree(from: string, name: string, id: string)
    requires '\n' !in from && '\n' !in name && '\n' !in id
    ensures '\n' !in "    " + id + " [label=\"" + name + "\"" + ", shape=ellipse, style=dashed];"
    ensures '\n' !in "    \"" + from + "\"" + " -> " + id + " [style=dashed];"
  {
    assert '\n' !in ", shape=ellipse, style=dashed];";
    assert '\n' !in " [style=dashed];";
  }

  lemma ColorUnbroken(c: string)
    requires c in {"lightgreen", "lightblue", "yellow", "white"}
    ensures '\n' !in c
  {
  }

  /** No line holds a line break. */
  predicate Unbroken(lines: seq<string>) {
    forall i :: 0 <= i < |lines| ==> '\n' !in lines[i]
  }

  lemma UnbrokenCat(a: seq<string>, b: seq<string>)
    requires Unbroken(a) && Unbroken(b)
    ensures Unbroken(a + b)
  {
    forall i | 0 <= i < |a + b| ensures '\n' !in (a + b)[i] {
      if i >= |a| {
        assert (a + b)[i] == b[i - |a|];
      }
    }
  }

  lemma BoxesUnbroken(g: DependencyGraph, doc: DotDoc)
    requires g.nodes.Valid() && BoxesListed(g, doc.nodeLines) && NoLineBreaks(g)
    ensures Unbroken(doc.nodeLines)
  {
    forall i | 0 <= i < |doc.nodeLines| ensures '\n' !in doc.nodeLines[i] {
      var p := g.nodes.keys[i];
      NodeListed(g, i);
      ColorUnbroken(ColorOf(g, p));
      assert '\n' !in NameAt(g, i) by {
        if Display(p, g.rootPath).None? {
          assert NameAt(g, i) == "";
        }
      }
      NodeLineFree(NameAt(g, i), ColorOf(g, p));
    }
  }

  lemma EdgeLinesUnbroken(g: DependencyGraph, doc: DotDoc)
    requires EdgesDescribed(g, doc.edges) && NoLineBreaks(g)
    ensures Unbroken(EdgeLines(doc.edges))
  {
    forall i | 0 <= i < |doc.edges| ensures '\n' !in EdgeLines(doc.edges)[i] {
      var e := doc.edges[i];
      assert e in doc.edges;
      var p, q :| HasEdge(g, p, q) && Display(p, g.rootPath) == Some(e.from) && Display(q, g.rootPath) == Some(e.to);
    }
  }

  lemma ExternalLinesUnbroken(g: DependencyGraph, doc: DotDoc)
    requires ExternalsDescribed(g, doc.externals) && NoLineBreaks(g)
    ensures Unbroken(ExternalLines(doc.externals))
  {
    var lines := ExternalLines(doc.externals);
    forall i | 0 <= i < |lines| ensures '\n' !in lines[i] {
      assert lines[i] in lines;
      var e :| e in doc.externals && lines[i] in PairLines(e);
      var p :| HasExternal(g, p, e.name) && Display(p, g.rootPath) == Some(e.from);
      ExternalLinesFree(e.from, e.name);
    }
  }

  /** The fixed lines hold no line break. */
  lemma FixedUnbroken()
    ensures Unbroken(Header) && Unbroken([""]) && Unbroken(["}"])
    ensures Unbroken(["", "    // External dependencies"])
  {
  }

  /** When no name holds a line break, splitting the text at line breaks
      gives back exactly the lines written. */
  lemma TextSplits(g: DependencyGraph, doc: DotDoc, showExternal: bool)
    requires g.nodes.Valid() && DescribesDot(g, doc) && NoLineBreaks(g)
    ensures Split(Text(doc, showExternal), '\n') == Lines(doc, showExternal)
  {
    BoxesUnbroken(g, doc);
    EdgeLinesUnbroken(g, doc);
    ExternalLinesUnbroken(g, doc);
    FixedUnbroken();
    var edges := EdgeLines(doc.edges);
    var ext := ExternalLines(doc.externals);
    UnbrokenCat(Header, doc.nodeLines);
    UnbrokenCat(Header + doc.nodeLines, [""]);
    UnbrokenCat(Header + doc.nodeLines + [""], edges);
    var tail: seq<string> := [];
    if showExternal {
      UnbrokenCat(["", "    // External dependencies"], ext);
      tail := ["", "    // External dependencies"] + ext;
    }
    UnbrokenCat(Header + doc.nodeLines + [""] + edges, tail);
    UnbrokenCat(Header + doc.nodeLines + [""] + edges + tail, ["}"]);
    assert Lines(doc, showExternal) == Header + doc.nodeLines + [""] + edges + tail + ["}"];
    SplitJoin(Lines(doc, showExternal), '\n');
  }

  /** The text opens with the graph header and closes with the brace. */
  lemma TextFrame(doc: DotDoc, showExternal: bool)
    ensures StartsWith(Text(doc, showExternal), "digraph dependencies {\n")
    ensures EndsWith(Text(doc, showExternal), "\n}")
  {
    var lines := Lines(doc, showExternal);
    assert lines[0] == "digraph dependencies {";
    JoinLast(lines, '\n');
  }

  lemma {:induction false} JoinLast(parts: seq<string>, sep: char)
    requires |parts| >= 2
    ensures EndsWith(Join(parts, sep), [sep] + parts[|parts| - 1])
    decreases |parts|
  {
    var rest := parts[1..];
    if |parts| > 2 {
      JoinLast(rest, sep);
    }
    var tail := [sep] + parts[|parts| - 1];
    var jr := Join(rest, sep);
    var j := Join(parts, sep);
    assert j == (parts[0] + [sep]) + jr;
    if |parts| == 2 {
      assert jr == parts[1];
      assert j == parts[0] + tail;
    } else {
      assert rest[|rest| - 1] == parts[|parts| - 1];
      assert j[|j| - |tail|..] == jr[|jr| - |tail|..];
    }
  }
}
