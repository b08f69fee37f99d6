/**
 * Rendering of a graph in (a subset of) the Graphviz DOT language (src/importlinter/domain/dotfile.py).
 */
module Dotfile {
  import opened Strings
  import Ordering

  /** An edge between two modules, with an optional label and emphasis. */
  datatype Edge = Edge(source: string, destination: string, labelText: string, emphasized: bool)

  /** `render_module`: a module shown relative to its parent, as a dot and what follows the last dot. */
  function RenderModule(name: string): string {
    "." + name[LastIndex(name, '.') + 1..]
  }

  /**
   * The rendered module is a dot and the last part of `name.split(".")`: a dot-free suffix of
   * the name that is either all of it or preceded by a dot.
   */
  lemma {:induction false} RenderModuleIsLastSegment(name: string)
    ensures var parts := Split(name, '.');
            RenderModule(name) == "." + parts[|parts| - 1]
    ensures var r := RenderModule(name);
            && |r| >= 1 && r[0] == '.' && '.' !in r[1..]
            && |r| - 1 <= |name| && r[1..] == name[|name| - (|r| - 1)..]
            && (|r| - 1 == |name| || name[|name| - |r|] == '.')
  {
    SplitLast(name, '.');
    var last := name[LastIndex(name, '.') + 1..];
    assert ("." + last)[1..] == last;
  }

  /** The attributes of an edge, in the order `_render_attrs` inserts them into its dict. */
  function Attributes(e: Edge): seq<(string, string)> {
    (if e.labelText != "" then [("label", e.labelText)] else []) + (if e.emphasized then [("style", "dashed")] else [])
  }

  function RenderAttribute(kv: (string, string)): string {
    kv.0 + "=\"" + kv.1 + "\""
  }

  /** Each attribute written as `key="value"`, in order. */
  function RenderAttributes(attrs: seq<(string, string)>): (r: seq<string>)
    ensures |r| == |attrs|
  {
    if attrs == [] then [] else [RenderAttribute(attrs[0])] + RenderAttributes(attrs[1..])
  }

  /** `_render_attrs`: the bracketed, comma-separated `key="value"` list, or nothing. */
  function RenderAttrs(e: Edge): string {
    var attrs := Attributes(e);
    if attrs != [] then " [" + Join(RenderAttributes(attrs), ", ") + "]" else ""
  }

  /**
   * The attributes are empty exactly when there is no label and no emphasis; otherwise the
   * label comes first, then the dashed style, comma-separated inside brackets.
   */
  lemma {:induction false} RenderAttrsCases(e: Edge)
    ensures RenderAttrs(e) == "" <==> e.labelText == "" && !e.emphasized
    ensures e.labelText != "" && !e.emphasized ==> RenderAttrs(e) == " [" + RenderAttribute(("label", e.labelText)) + "]"
    ensures e.labelText == "" && e.emphasized ==> RenderAttrs(e) == " [" + RenderAttribute(("style", "dashed")) + "]"
    ensures e.labelText != "" && e.emphasized ==>
              RenderAttrs(e) == " [" + RenderAttribute(("label", e.labelText)) + ", " + RenderAttribute(("style", "dashed")) + "]"
  {
    var attrs := Attributes(e);
    var items := RenderAttributes(attrs);
    if e.labelText != "" && e.emphasized {
      var a, b := RenderAttribute(("label", e.labelText)), RenderAttribute(("style", "dashed"));
      assert attrs == [("label", e.labelText), ("style", "dashed")];
      assert attrs[1..] == [("style", "dashed")];
      assert RenderAttributes(attrs[1..]) == [b] + RenderAttributes([]);
      assert items == [a, b];
      assert items[1..] == [b];
      assert Join(items, ", ") == a + ", " + b;
      assert " [" + (a + ", " + b) + "]" == " [" + a + ", " + b + "]";
    } else if e.labelText != "" {
      assert items == [RenderAttribute(("label", e.labelText))];
    } else if e.emphasized {
      assert items == [RenderAttribute(("style", "dashed"))];
    }
  }

  /** `Edge.__str__`. */
  function EdgeString(e: Edge): string {
    "\"" + RenderModule(e.source) + "\" ->  \"" + RenderModule(e.destination) + "\"" + RenderAttrs(e)
  }

  /**
   * An edge is written as its two quoted, relative module names joined by an arrow between two
   * spaces (`"<src>" ->  "<dst>"`), followed by its attributes.
   */
  lemma {:induction false} EdgeStringLayout(e: Edge)
    ensures var src, dst := RenderModule(e.source), RenderModule(e.destination);
            var r := EdgeString(e);
            && |r| == |src| + |dst| + 9 + |RenderAttrs(e)|
            && r[0] == '"' && r[1..|src| + 1] == src
            && r[|src| + 1..|src| + 8] == "\" ->  \""
            && r[|src| + 8..|src| + |dst| + 8] == dst && r[|src| + |dst| + 8] == '"'
            && r[|src| + |dst| + 9..] == RenderAttrs(e)
  {
    var src, dst := RenderModule(e.source), RenderModule(e.destination);
    var r := EdgeString(e);
    var a := "\"" + src;
    var b := a + "\" ->  \"";
    var c := b + dst;
    var d := c + "\"";
    assert r == d + RenderAttrs(e);
    PrefixOf(d, RenderAttrs(e));
    PrefixOf(c, "\"");
    PrefixOf(b, dst);
    PrefixOf(a, "\" ->  \"");
    assert r[1..|src| + 1] == d[1..|src| + 1] == c[1..|src| + 1] == b[1..|src| + 1] == a[1..];
    assert r[|src| + 1..|src| + 8] == d[|src| + 1..|src| + 8] == c[|src| + 1..|src| + 8] == b[|src| + 1..];
    assert r[|src| + 8..|src| + |dst| + 8] == d[|src| + 8..|src| + |dst| + 8] == c[|src| + 8..];
  }

  /** Both parts of a concatenation can be read back from it. */
  lemma {:induction false} PrefixOf<T>(x: seq<T>, y: seq<T>)
    ensures (x + y)[..|x|] == x && (x + y)[|x|..] == y
    ensures forall i, j :: 0 <= i <= j <= |x| ==> (x + y)[i..j] == x[i..j]
  {
  }

  /** The dataclass order of edges: by source, destination, label, then emphasis (false first). */
  predicate EdgeLess(a: Edge, b: Edge) {
    || Less(a.source, b.source)
    || (a.source == b.source && Less(a.destination, b.destination))
    || (a.source == b.source && a.destination == b.destination && Less(a.labelText, b.labelText))
    || (a.source == b.source && a.destination == b.destination && a.labelText == b.labelText && !a.emphasized && b.emphasized)
  }

  lemma {:induction false} EdgeLessIsStrictTotalOrder()
    ensures Ordering.IsStrictTotalOrder(EdgeLess)
  {
    LessIsStrictTotalOrder();
  }

  /** `sorted(edges)`. */
  function SortedEdges(edges: set<Edge>): (r: seq<Edge>)
    ensures |r| == |edges|
    ensures forall x :: x in r <==> x in edges
    ensures forall i, j :: 0 <= i < j < |r| ==> EdgeLess(r[i], r[j])
  {
    EdgeLessIsStrictTotalOrder();
    Ordering.SortSet(edges, EdgeLess)
  }

  const Indent := "    "
  const NodeFontLine := "    node [fontname=helvetica]"
  const ConcentrateLine := "    concentrate=true"

  function NodeLine(node: string): string {
    Indent + "\"" + RenderModule(node) + "\""
  }

  function EdgeLine(e: Edge): string {
    Indent + EdgeString(e)
  }

  function Header(concentrate: bool): seq<string> {
    ["digraph {", NodeFontLine] + if concentrate then [ConcentrateLine] else []
  }

  function NodeLines(nodes: seq<string>): (r: seq<string>)
    ensures |r| == |nodes| && forall k :: 0 <= k < |nodes| ==> r[k] == NodeLine(nodes[k])
  {
    seq(|nodes|, k requires 0 <= k < |nodes| => NodeLine(nodes[k]))
  }

  function EdgeLines(edges: seq<Edge>): (r: seq<string>)
    ensures |r| == |edges| && forall k :: 0 <= k < |edges| ==> r[k] == EdgeLine(edges[k])
  {
    seq(|edges|, k requires 0 <= k < |edges| => EdgeLine(edges[k]))
  }

  /** The lines `render` joins, for nodes and edges already in order. */
  function LinesFor(concentrate: bool, nodes: seq<string>, edges: seq<Edge>): seq<string> {
    Header(concentrate) + NodeLines(nodes) + EdgeLines(edges) + ["}"]
  }

  /** The lines `render` joins: the header, one line per sorted node, one per sorted edge, and the closing brace. */
  function RenderLines(concentrate: bool, nodes: set<string>, edges: set<Edge>): seq<string> {
    LinesFor(concentrate, Sorted(nodes), SortedEdges(edges))
  }

  /** Every node line and edge line has a double quote right after the indent. */
  lemma {:induction false} BodyLinesQuoted(nodes: seq<string>, edges: seq<Edge>)
    ensures forall k :: 0 <= k < |nodes| ==> |NodeLines(nodes)[k]| > 4 && NodeLines(nodes)[k][4] == '"'
    ensures forall k :: 0 <= k < |edges| ==> |EdgeLines(edges)[k]| > 4 && EdgeLines(edges)[k][4] == '"'
  {
    forall k | 0 <= k < |edges| ensures |EdgeLines(edges)[k]| > 4 && EdgeLines(edges)[k][4] == '"' {
      var s := EdgeString(edges[k]);
      assert s[0] == '"';
      assert EdgeLines(edges)[k] == Indent + s;
    }
  }

  /**
   * The layout of the rendered lines: the opening line and the font line first, then one line
   * per node and one per edge, in the order given, and the closing brace last.
   */
  lemma {:induction false} LinesLayout(concentrate: bool, nodes: seq<string>, edges: seq<Edge>)
    ensures var lines := LinesFor(concentrate, nodes, edges);
            var h := |Header(concentrate)|;
            && |lines| == h + |nodes| + |edges| + 1
            && lines[0] == "digraph {" && lines[1] == NodeFontLine && lines[|lines| - 1] == "}"
            && (forall k :: 0 <= k < |nodes| ==> lines[h + k] == NodeLine(nodes[k]))
            && (forall k :: 0 <= k < |edges| ==> lines[h + |nodes| + k] == EdgeLine(edges[k]))
  {
    var header, nodeLines, edgeLines := Header(concentrate), NodeLines(nodes), EdgeLines(edges);
    assert LinesFor(concentrate, nodes, edges) == header + nodeLines + edgeLines + ["}"];
    Blocks(header, nodeLines, edgeLines, ["}"]);
  }

  /** Where each of four sequences put one after another lands in the whole. */
  lemma {:induction false} Blocks<T>(a: seq<T>, b: seq<T>, c: seq<T>, d: seq<T>)
    ensures var s := a + b + c + d;
            && |s| == |a| + |b| + |c| + |d|
            && (forall k :: 0 <= k < |a| ==> s[k] == a[k])
            && (forall k :: 0 <= k < |b| ==> s[|a| + k] == b[k])
            && (forall k :: 0 <= k < |c| ==> s[|a| + |b| + k] == c[k])
            && (forall k :: 0 <= k < |d| ==> s[|a| + |b| + |c| + k] == d[k])
  {
  }

  /** The `concentrate=true` line is among the rendered lines exactly when `concentrate` is set. */
  lemma {:induction false} ConcentrateLineIff(concentrate: bool, nodes: seq<string>, edges: seq<Edge>)
    ensures ConcentrateLine in LinesFor(concentrate, nodes, edges) <==> concentrate
  {
    BodyLinesQuoted(nodes, edges);
    assert ConcentrateLine[4] == 'c';
    assert ConcentrateLine !in NodeLines(nodes);
    assert ConcentrateLine !in EdgeLines(edges);
  }

  /** The rendered text opens with the `digraph {` line and ends with the closing brace and a newline. */
  lemma {:induction false} RenderText(concentrate: bool, nodes: seq<string>, edges: seq<Edge>)
    ensures var text := Join(LinesFor(concentrate, nodes, edges), "\n") + "\n";
            StartsWith(text, "digraph {\n") && EndsWith(text, "}\n")
  {
    var lines := LinesFor(concentrate, nodes, edges);
    var init := lines[..|lines| - 1];
    assert lines == init + ["}"];
    JoinSnoc(init, "}", "\n");
    var text := Join(lines, "\n") + "\n";
    assert Join(lines, "\n") == "digraph {" + "\n" + Join(lines[1..], "\n");
    assert text[..10] == "digraph {\n";
    assert text[|text| - 2..] == "}\n";
  }

  /** The loop of `render` over the sorted nodes. */
  method RenderNodeLines(sortedNodes: seq<string>) returns (lines: seq<string>)
    ensures lines == NodeLines(sortedNodes)
  {
    lines := [];
    var i := 0;
    while i < |sortedNodes|
      invariant 0 <= i <= |sortedNodes|
      invariant |lines| == i
      invariant forall k :: 0 <= k < i ==> lines[k] == NodeLine(sortedNodes[k])
    {
      lines := lines + [Indent + "\"" + RenderModule(sortedNodes[i]) + "\""];
      i := i + 1;
    }
  }

  /** The loop of `render` over the sorted edges. */
  method RenderEdgeLines(sortedEdges: seq<Edge>) returns (lines: seq<string>)
    ensures lines == EdgeLines(sortedEdges)
  {
    lines := [];
    var j := 0;
    while j < |sortedEdges|
      invariant 0 <= j <= |sortedEdges|
      invariant |lines| == j
      invariant forall k :: 0 <= k < j ==> lines[k] == EdgeLine(sortedEdges[k])
    {
      lines := lines + [Indent + EdgeString(sortedEdges[j])];
      j := j + 1;
    }
  }

  /** A graph to be rendered in DOT: a title, whether to merge lines, and its nodes and edges. */
  class DotGraph {
    var title: string
    var concentrate: bool
    var nodes: set<string>
    var edges: set<Edge>

    constructor (title: string, concentrate: bool)
      ensures this.title == title && this.concentrate == concentrate
      ensures nodes == {} && edges == {}
    {
      this.title := title;
      this.concentrate := concentrate;
      nodes := {};
      edges := {};
    }

    /** `add_node`: adding a node that is already there changes nothing. */
    method AddNode(name: string)
      modifies this`nodes
      ensures nodes == old(nodes) + {name}
    {
      nodes := nodes + {name};
    }

    /** `add_edge`: adding an edge that is already there changes nothing. */
    method AddEdge(edge: Edge)
      modifies this`edges
      ensures edges == old(edges) + {edge}
    {
      edges := edges + {edge};
    }

    /** `render`: the lines built one by one, joined with newlines, and a final newline. */
    method Render() returns (text: string)
      ensures text == Join(RenderLines(concentrate, nodes, edges), "\n") + "\n"
    {
      var lines := ["digraph {", NodeFontLine];
      if concentrate {
        lines := lines + [ConcentrateLine];
      }
      assert lines == Header(concentrate);
      var sortedNodes := Sorted(nodes);
      var nodeLines := RenderNodeLines(sortedNodes);
      var sortedEdges := SortedEdges(edges);
      var edgeLines := RenderEdgeLines(sortedEdges);
      lines := lines + nodeLines + edgeLines + ["}"];
      text := Join(lines, "\n") + "\n";
    }
  }
}
