/** The Graphviz exporter of src/ast_visualize.cpp: one `node<id>` line per
    tree node, numbered in pre-order from a counter, and one edge line from
    each node to each of its children, between a two-line header and a
    closing brace. */
module AstVisualize {
  import opened Syntax
  import opened Decimal
  import opened Seqs

  /** What one output line says. */
  datatype DotLine =
    | Open
    | Style
    | Vertex(id: int, caption: string)
    | Edge(from: int, to: int)
    | Close

  /** The text of a line, as the exporter writes it (before `std::endl`). */
  function Text(l: DotLine): string {
    match l
    case Open => "digraph AST {"
    case Style => "  node [shape=box, style=filled, fillcolor=lightgray];"
    case Vertex(id, caption) => "  node" + IntText(id) + " [label=\"" + caption + "\"]"
    case Edge(from, to) => "  node" + IntText(from) + " -> node" + IntText(to)
    case Close => "}"
  }

  function Texts(ls: seq<DotLine>): (r: seq<string>)
    ensures |r| == |ls|
  {
    if ls == [] then [] else Texts(ls[..|ls| - 1]) + [Text(ls[|ls| - 1])]
  }

  /** Line `i` of the file is the text of the `i`-th line written. */
  lemma {:induction false} TextsLineByLine(ls: seq<DotLine>)
    ensures forall i | 0 <= i < |ls| :: Texts(ls)[i] == Text(ls[i])
  {
    if ls != [] {
      var init := ls[..|ls| - 1];
      TextsLineByLine(init);
      assert forall i | 0 <= i < |init| :: ls[i] == init[i];
    }
  }

  /** The label of a node: its type, then `\n` and its value when it has one. */
  function Label(t: Ast): string
    requires t.Node?
  {
    KindName(t.kind) + if t.value == "" then "" else "\\n" + t.value
  }

  /** What has been written and the value of `nodeCounter`. */
  datatype Dot = Dot(lines: seq<DotLine>, next: nat)

  /** `writeDotNode(out, node, parentId)`: nothing for a null pointer;
      otherwise the node takes the counter's value as its id, is written,
      gets an edge from its parent unless the parent is -1, and its
      children follow. */
  function WriteNode(t: Ast, parent: int, d: Dot): (r: Dot)
    ensures d.lines <= r.lines && d.next <= r.next
    decreases t, 1
  {
    if t.Null? then d else WriteChildren(t, d.next, Head(t, parent, d), |t.children|)
  }

  /** The node's own line under the next id, and the edge from its parent
      unless the parent is -1. */
  function Head(t: Ast, parent: int, d: Dot): (r: Dot)
    requires t.Node?
    ensures d.lines <= r.lines && r.next == d.next + 1
  {
    var edge := if parent != -1 then [Edge(parent, d.next)] else [];
    Dot(d.lines + [Vertex(d.next, Label(t))] + edge, d.next + 1)
  }

  /** The loop over the children of `t` (whose id is `id`) after `n` rounds. */
  function WriteChildren(t: Ast, id: nat, d: Dot, n: nat): (r: Dot)
    requires t.Node? && n <= |t.children|
    ensures d.lines <= r.lines && d.next <= r.next
    decreases t, 0, n
  {
    if n == 0 then d else WriteNode(t.children[n - 1], id, WriteChildren(t, id, d, n - 1))
  }

  /** The file `exportASTtoDot(root, filename)` leaves behind. */
  function Document(root: Ast): seq<DotLine> {
    WriteNode(root, -1, Dot([Open, Style], 0)).lines + [Close]
  }

  /** The output stream and the static `nodeCounter`; `lines` is what the
      written text says. */
  class DotWriter {
    var nodeCounter: nat
    var out: seq<string>
    ghost var lines: seq<DotLine>

    ghost predicate Valid()
      reads this
    {
      out == Texts(lines)
    }

    ghost function State(): Dot
      reads this
    {
      Dot(lines, nodeCounter)
    }

    /** The counter as the program starts, and nothing written. */
    constructor ()
      ensures Valid() && nodeCounter == 0 && out == [] && lines == []
    {
      nodeCounter := 0;
      out := [];
      lines := [];
    }

    /** `out << ... << std::endl` for one line. */
    method Emit(l: DotLine)
      requires Valid()
      modifies this`out, this`lines
      ensures Valid() && lines == old(lines) + [l] && out == old(out) + [Text(l)]
    {
      out := out + [Text(l)];
      lines := lines + [l];
    }

    /** `writeDotNode`. */
    method WriteDotNode(node: Ast, parentId: int)
      requires Valid()
      modifies this
      ensures Valid() && State() == WriteNode(node, parentId, old(State()))
      decreases node
    {
      if node.Null? {
        return;
      }
      var myId := WriteHead(node, parentId);
      ghost var start := State();
      for i := 0 to |node.children|
        invariant Valid() && State() == WriteChildren(node, myId, start, i)
      {
        WriteDotNode(node.children[i], myId);
      }
    }

    /** The first lines of `writeDotNode` for a non-null node. */
    method WriteHead(node: Ast, parentId: int) returns (myId: nat)
      requires Valid() && node.Node?
      modifies this
      ensures Valid() && myId == old(nodeCounter) && State() == Head(node, parentId, old(State()))
    {
      ghost var d := State();
      myId := nodeCounter;
      nodeCounter := nodeCounter + 1;
      var caption := Label(node);
      Emit(Vertex(myId, caption));
      if parentId != -1 {
        Emit(Edge(parentId, myId));
        assert lines == d.lines + [Vertex(myId, caption)] + [Edge(parentId, myId)];
      } else {
        assert lines == d.lines + [Vertex(myId, caption)] + [];
      }
    }

    /** `exportASTtoDot`: the file is opened afresh, the counter restarts
        at 0, so exporting the same tree twice writes the same file. */
    method ExportASTtoDot(root: Ast)
      modifies this
      ensures Valid() && lines == Document(root) && out == Texts(Document(root))
      ensures nodeCounter == |PreOrder(root)|
    {
      out := [];
      lines := [];
      Emit(Open);
      Emit(Style);
      nodeCounter := 0;
      assert State() == Dot([Open, Style], 0);
      WriteDotNode(root, -1);
      Emit(Close);
      WriteNodeNumbers(root, -1, Dot([Open, Style], 0));
    }
  }

  // ---------------------------------------------------------------------
  // Numbering: the nodes are written in pre-order under consecutive ids,
  // and every node but the root of the export gets exactly one edge into it.
  // ---------------------------------------------------------------------

  /** The labels of the nodes of `t` in pre-order (null pointers skipped). */
  function PreOrder(t: Ast): seq<string>
    decreases t, 1
  {
    if t.Null? then [] else [Label(t)] + ChildPreOrder(t, |t.children|)
  }

  function ChildPreOrder(t: Ast, n: nat): seq<string>
    requires t.Node? && n <= |t.children|
    decreases t, 0, n
  {
    if n == 0 then [] else ChildPreOrder(t, n - 1) + PreOrder(t.children[n - 1])
  }

  /** The labels of the node lines, in the order they are written. */
  function Captions(ls: seq<DotLine>): seq<string> {
    if ls == [] then []
    else Captions(ls[..|ls| - 1]) + if ls[|ls| - 1].Vertex? then [ls[|ls| - 1].caption] else []
  }

  /** The ids of the node lines, in the order they are written. */
  function VertexIds(ls: seq<DotLine>): seq<int> {
    if ls == [] then []
    else VertexIds(ls[..|ls| - 1]) + if ls[|ls| - 1].Vertex? then [ls[|ls| - 1].id] else []
  }

  /** The targets of the edge lines, in the order they are written. */
  function EdgeTargets(ls: seq<DotLine>): seq<int> {
    if ls == [] then []
    else EdgeTargets(ls[..|ls| - 1]) + if ls[|ls| - 1].Edge? then [ls[|ls| - 1].to] else []
  }

  /** The (from, to) pairs of the edge lines, in the order they are written. */
  function EdgePairs(ls: seq<DotLine>): seq<(int, int)> {
    if ls == [] then []
    else EdgePairs(ls[..|ls| - 1]) + if ls[|ls| - 1].Edge? then [(ls[|ls| - 1].from, ls[|ls| - 1].to)] else []
  }

  /** The parent/child pairs of `t` by pre-order ids, `t` itself having id
      `base` and hanging under `parent` (none for -1): each child is
      numbered after its parent and all the nodes of its earlier siblings. */
  function TreeEdges(t: Ast, parent: int, base: nat): seq<(int, int)>
    decreases t, 1
  {
    if t.Null? then []
    else (if parent != -1 then [(parent, base)] else []) + ChildTreeEdges(t, base, base + 1, |t.children|)
  }

  /** The pairs under the first `n` children of `t` (whose id is `id`), the
      first child having id `first`. */
  function ChildTreeEdges(t: Ast, id: nat, first: nat, n: nat): seq<(int, int)>
    requires t.Node? && n <= |t.children|
    decreases t, 0, n
  {
    if n == 0 then []
    else ChildTreeEdges(t, id, first, n - 1) + TreeEdges(t.children[n - 1], id, first + |ChildPreOrder(t, n - 1)|)
  }

  /** Every non-null child of a node gets an edge from the node's id, to the
      id after the node and all the nodes of the child's earlier siblings. */
  lemma ChildEdge(t: Ast, parent: int, base: nat, j: nat)
    requires t.Node? && j < |t.children| && t.children[j].Node?
    ensures (base, base + 1 + |ChildPreOrder(t, j)|) in TreeEdges(t, parent, base)
  {
    ChildEdgeAmong(t, base, base + 1, j, |t.children|);
  }

  lemma {:induction false} ChildEdgeAmong(t: Ast, id: nat, first: nat, j: nat, n: nat)
    requires t.Node? && j < n <= |t.children| && t.children[j].Node?
    ensures (id, first + |ChildPreOrder(t, j)|) in ChildTreeEdges(t, id, first, n)
  {
    if j < n - 1 {
      ChildEdgeAmong(t, id, first, j, n - 1);
    } else {
      assert TreeEdges(t.children[j], id, first + |ChildPreOrder(t, j)|)[0] == (id, first + |ChildPreOrder(t, j)|);
    }
  }

  /** `from`, `from + 1`, ..., `from + n - 1`. */
  function Range(from: int, n: nat): (r: seq<int>)
    ensures |r| == n && forall i | 0 <= i < n :: r[i] == from + i
  {
    seq(n, i => from + i)
  }

  lemma RangeConcat(from: int, n: nat, m: nat)
    ensures Range(from, n) + Range(from + n, m) == Range(from, n + m)
  {
    var a := Range(from, n) + Range(from + n, m);
    forall i | 0 <= i < n + m
      ensures a[i] == Range(from, n + m)[i]
    {
      if i >= n {
        assert a[i] == Range(from + n, m)[i - n];
      }
    }
  }

  lemma LinesAppend(ls: seq<DotLine>, l: DotLine)
    ensures Captions(ls + [l]) == Captions(ls) + if l.Vertex? then [l.caption] else []
    ensures VertexIds(ls + [l]) == VertexIds(ls) + if l.Vertex? then [l.id] else []
    ensures EdgeTargets(ls + [l]) == EdgeTargets(ls) + if l.Edge? then [l.to] else []
    ensures EdgePairs(ls + [l]) == EdgePairs(ls) + if l.Edge? then [(l.from, l.to)] else []
  {
    assert (ls + [l])[..|ls|] == ls;
  }

  /** From `d` to `r`: nodes labelled `labels` were written, in that order,
      under the next `|labels|` ids, all but the first `skip` of them got an
      edge, and the edges written are `edges`. */
  predicate Numbered(d: Dot, r: Dot, labels: seq<string>, skip: nat, edges: seq<(int, int)>) {
    skip <= |labels| && r.next == d.next + |labels| &&
    Captions(r.lines) == Captions(d.lines) + labels &&
    VertexIds(r.lines) == VertexIds(d.lines) + Range(d.next, |labels|) &&
    EdgeTargets(r.lines) == EdgeTargets(d.lines) + Range(d.next + skip, |labels| - skip) &&
    EdgePairs(r.lines) == EdgePairs(d.lines) + edges
  }

  lemma NumberedChain(d: Dot, h: Dot, r: Dot, l1: seq<string>, skip: nat, l2: seq<string>, labels: seq<string>,
                      e1: seq<(int, int)>, e2: seq<(int, int)>, edges: seq<(int, int)>)
    requires Numbered(d, h, l1, skip, e1) && Numbered(h, r, l2, 0, e2)
    requires labels == l1 + l2 && edges == e1 + e2
    ensures Numbered(d, r, labels, skip, edges)
  {
    AppendAssoc(EdgePairs(d.lines), e1, e2);
    calc {
      Captions(r.lines);
      (Captions(d.lines) + l1) + l2;
      { AppendAssoc(Captions(d.lines), l1, l2); }
      Captions(d.lines) + labels;
    }
    var n1, n2 := |l1|, |l2|;
    var v1, v2 := Range(d.next, n1), Range(h.next, n2);
    calc {
      VertexIds(r.lines);
      (VertexIds(d.lines) + v1) + v2;
      { AppendAssoc(VertexIds(d.lines), v1, v2); }
      VertexIds(d.lines) + (v1 + v2);
      { RangeConcat(d.next, n1, n2); }
      VertexIds(d.lines) + Range(d.next, |labels|);
    }
    var e1 := Range(d.next + skip, n1 - skip);
    calc {
      EdgeTargets(r.lines);
      (EdgeTargets(d.lines) + e1) + v2;
      { AppendAssoc(EdgeTargets(d.lines), e1, v2); }
      EdgeTargets(d.lines) + (e1 + v2);
      { RangeConcat(d.next + skip, n1 - skip, n2); }
      EdgeTargets(d.lines) + Range(d.next + skip, |labels| - skip);
    }
  }

  lemma NumberedNothing(d: Dot)
    ensures Numbered(d, d, [], 0, [])
  {
    assert EdgePairs(d.lines) + [] == EdgePairs(d.lines);
    assert Captions(d.lines) + [] == Captions(d.lines);
    assert VertexIds(d.lines) + Range(d.next, 0) == VertexIds(d.lines);
    assert EdgeTargets(d.lines) + Range(d.next, 0) == EdgeTargets(d.lines);
  }

  /** The node line and the edge into it. */
  lemma NumberedHead(d: Dot, t: Ast, parent: int)
    requires t.Node?
    ensures Numbered(d, Head(t, parent, d), [Label(t)], if parent == -1 then 1 else 0,
                     if parent != -1 then [(parent, d.next)] else [])
  {
    var r := Head(t, parent, d);
    var v := d.lines + [Vertex(d.next, Label(t))];
    LinesAppend(d.lines, Vertex(d.next, Label(t)));
    if parent != -1 {
      LinesAppend(v, Edge(parent, d.next));
      assert r.lines == v + [Edge(parent, d.next)];
    } else {
      assert r.lines == v;
      assert EdgePairs(r.lines) == EdgePairs(d.lines) + [];
    }
  }

  /** `writeDotNode` writes the nodes of `t` in pre-order under the next
      ids, one after the other, one edge into each of them except a root
      written with parent -1, and each edge from the id of the node's
      parent. */
  lemma {:induction false} WriteNodeNumbers(t: Ast, parent: int, d: Dot)
    ensures Numbered(d, WriteNode(t, parent, d), PreOrder(t), if t.Node? && parent == -1 then 1 else 0,
                     TreeEdges(t, parent, d.next))
    decreases t, 1
  {
    if t.Null? {
      NumberedNothing(d);
    } else {
      var h := Head(t, parent, d);
      var edge := if parent != -1 then [(parent, d.next)] else [];
      NumberedHead(d, t, parent);
      WriteChildrenNumbers(t, d.next, h, |t.children|);
      NumberedChain(d, h, WriteChildren(t, d.next, h, |t.children|), [Label(t)], if parent == -1 then 1 else 0,
                    ChildPreOrder(t, |t.children|), PreOrder(t),
                    edge, ChildTreeEdges(t, d.next, d.next + 1, |t.children|), TreeEdges(t, parent, d.next));
    }
  }

  lemma {:induction false} WriteChildrenNumbers(t: Ast, id: nat, d: Dot, n: nat)
    requires t.Node? && n <= |t.children|
    ensures Numbered(d, WriteChildren(t, id, d, n), ChildPreOrder(t, n), 0, ChildTreeEdges(t, id, d.next, n))
    decreases t, 0, n, 1
  {
    if n == 0 {
      NumberedNothing(d);
    } else {
      WriteChildrenNumbers(t, id, d, n - 1);
      ChildNumbers(t, id, d, n);
    }
  }

  /** One more child. */
  lemma ChildNumbers(t: Ast, id: nat, d: Dot, n: nat)
    requires t.Node? && 0 < n <= |t.children|
    requires Numbered(d, WriteChildren(t, id, d, n - 1), ChildPreOrder(t, n - 1), 0, ChildTreeEdges(t, id, d.next, n - 1))
    ensures Numbered(d, WriteChildren(t, id, d, n), ChildPreOrder(t, n), 0, ChildTreeEdges(t, id, d.next, n))
    decreases t, 0, n, 0
  {
    var mid := WriteChildren(t, id, d, n - 1);
    var c := t.children[n - 1];
    WriteNodeNumbers(c, id, mid);
    NumberedChain(d, mid, WriteChildren(t, id, d, n), ChildPreOrder(t, n - 1), 0, PreOrder(c), ChildPreOrder(t, n),
                  ChildTreeEdges(t, id, d.next, n - 1), TreeEdges(c, id, mid.next), ChildTreeEdges(t, id, d.next, n));
  }

  /** The whole file: the header, one line per node of `root` in pre-order
      numbered 0, 1, ..., an edge into every node but the root, each from
      its parent's number, and the closing brace. A null root leaves an
      empty graph. */
  lemma ExportedFile(root: Ast)
    ensures var doc := Document(root);
            var n := |PreOrder(root)|;
            |doc| >= 3 && doc[..2] == [Open, Style] && doc[|doc| - 1] == Close &&
            Captions(doc) == PreOrder(root) &&
            VertexIds(doc) == Range(0, n) &&
            EdgeTargets(doc) == (if root.Null? then [] else Range(1, n - 1)) &&
            EdgePairs(doc) == TreeEdges(root, -1, 0)
  {
    var d := Dot([Open, Style], 0);
    var r := WriteNode(root, -1, d);
    var skip := if root.Node? then 1 else 0;
    WriteNodeNumbers(root, -1, d);
    HeaderHasNoNodes();
    assert Captions(r.lines) == PreOrder(root);
    assert VertexIds(r.lines) == Range(0, |PreOrder(root)|);
    assert EdgeTargets(r.lines) == Range(skip, |PreOrder(root)| - skip);
    assert EdgePairs(r.lines) == TreeEdges(root, -1, 0);
    LinesAppend(r.lines, Close);
    assert Document(root)[..2] == r.lines[..2] == [Open, Style];
  }

  lemma HeaderHasNoNodes()
    ensures Captions([Open, Style]) == [] && VertexIds([Open, Style]) == [] && EdgeTargets([Open, Style]) == []
    ensures EdgePairs([Open, Style]) == []
  {
    assert [Open, Style][..1] == [Open];
  }

  /** Only edges of a node's children point past that node. */
  predicate EdgesForward(ls: seq<DotLine>, lo: nat)
    requires lo <= |ls|
  {
    forall k | lo <= k < |ls| && ls[k].Edge? :: ls[k].from < ls[k].to
  }

  lemma EdgesForwardJoin(ls: seq<DotLine>, mid: seq<DotLine>, lo: nat)
    requires lo <= |mid| && mid <= ls
    requires EdgesForward(mid, lo) && EdgesForward(ls, |mid|)
    ensures EdgesForward(ls, lo)
  {
    forall k | lo <= k < |ls| && ls[k].Edge?
      ensures ls[k].from < ls[k].to
    {
      if k < |mid| {
        assert ls[k] == mid[k];
      }
    }
  }

  /** Edges go from a node to one written after it (the parent is -1 or
      a node written earlier), so the graph has no cycle. */
  lemma {:induction false} EdgesPointForward(t: Ast, parent: int, d: Dot)
    requires parent < d.next
    ensures EdgesForward(WriteNode(t, parent, d).lines, |d.lines|)
    decreases t, 1
  {
    if t.Node? {
      var h := Head(t, parent, d);
      assert EdgesForward(h.lines, |d.lines|);
      ChildrenPointForward(t, d.next, h, |t.children|);
      EdgesForwardJoin(WriteNode(t, parent, d).lines, h.lines, |d.lines|);
    }
  }

  lemma {:induction false} ChildrenPointForward(t: Ast, id: nat, d: Dot, n: nat)
    requires t.Node? && n <= |t.children| && id < d.next
    ensures EdgesForward(WriteChildren(t, id, d, n).lines, |d.lines|)
    decreases t, 0, n
  {
    if n > 0 {
      var mid := WriteChildren(t, id, d, n - 1);
      ChildrenPointForward(t, id, d, n - 1);
      EdgesPointForward(t.children[n - 1], id, mid);
      EdgesForwardJoin(WriteChildren(t, id, d, n).lines, mid.lines, |d.lines|);
    }
  }

  /** No type name contains a backslash. */
  lemma KindNamePlain(k: Kind, i: int)
    requires 0 <= i < |KindName(k)|
    ensures KindName(k)[i] != '\\'
  {
  }

  lemma KindNameInjective(a: Kind, b: Kind)
    requires KindName(a) == KindName(b)
    ensures a == b
  {
  }

  /** A shorter type name ends where a longer one still has a letter: the
      label of the first either stops there or has a backslash there. */
  lemma ShorterNameDiffers(a: Ast, b: Ast)
    requires a.Node? && b.Node? && |KindName(a.kind)| < |KindName(b.kind)|
    ensures Label(a) != Label(b)
  {
    var ka := KindName(a.kind);
    KindNamePlain(b.kind, |ka|);
    assert Label(b)[|ka|] == KindName(b.kind)[|ka|];
    if a.value != "" {
      assert Label(a)[|ka|] == '\\';
    }
  }

  /** The label names the node's type and value unambiguously: two nodes
      with the same label have the same type and the same value. */
  lemma LabelDeterminesNode(a: Ast, b: Ast)
    requires a.Node? && b.Node? && Label(a) == Label(b)
    ensures a.kind == b.kind && a.value == b.value
  {
    var s, ka, kb := Label(a), KindName(a.kind), KindName(b.kind);
    if |ka| < |kb| {
      ShorterNameDiffers(a, b);
      assert false;
    } else if |kb| < |ka| {
      ShorterNameDiffers(b, a);
      assert false;
    } else {
      assert ka == s[..|ka|] == kb;
      KindNameInjective(a.kind, b.kind);
      if a.value != "" && b.value != "" {
        assert a.value == s[|ka| + 2..] == b.value;
      }
    }
  }

  const AssignOne := Node(Assign, "x", "", 1, [Node(IntLit, "1", "", 1, [])])

  lemma AssignmentLines()
    ensures Document(AssignOne) == [Open, Style, Vertex(0, "Assign\\nx"), Vertex(1, "Int\\n1"), Edge(0, 1), Close]
  {
    var c := AssignOne.children[0];
    assert Label(AssignOne) == "Assign\\nx";
    assert Label(c) == "Int\\n1";
    var h := Head(AssignOne, -1, Dot([Open, Style], 0));
    assert h.lines == [Open, Style, Vertex(0, "Assign\\nx")];
    assert Head(c, 0, h).lines == [Open, Style, Vertex(0, "Assign\\nx"), Vertex(1, "Int\\n1"), Edge(0, 1)];
  }

  lemma RootLineText()
    ensures Text(Vertex(0, "Assign\\nx")) == "  node0 [label=\"Assign\\nx\"]"
  {
    assert IntText(0) == "0";
  }

  lemma LeafLineText()
    ensures Text(Vertex(1, "Int\\n1")) == "  node1 [label=\"Int\\n1\"]"
  {
    assert IntText(1) == "1";
  }

  lemma EdgeLineText()
    ensures Text(Edge(0, 1)) == "  node0 -> node1"
  {
    assert IntText(0) == "0" && IntText(1) == "1";
  }

  /** `x = 1;` as a file. */
  lemma AssignmentFile()
    ensures Texts(Document(AssignOne)) ==
            ["digraph AST {",
             "  node [shape=box, style=filled, fillcolor=lightgray];",
             "  node0 [label=\"Assign\\nx\"]",
             "  node1 [label=\"Int\\n1\"]",
             "  node0 -> node1",
             "}"]
  {
    var v0, v1 := Vertex(0, "Assign\\nx"), Vertex(1, "Int\\n1");
    var lines := [Open, Style, v0, v1, Edge(0, 1), Close];
    AssignmentLines();
    RootLineText();
    LeafLineText();
    EdgeLineText();
    TextsLineByLine(lines);
  }
}
