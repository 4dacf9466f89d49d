/** The three-address code generator of src/irgen.cpp: a post-order walk
    that appends one quadruple per operator node, assignment and
    initialised declaration, naming intermediate results `t0`, `t1`, ...
    from a counter that lives as long as the program. */
module IrGen {
  import opened Syntax
  import opened Decimal
  import opened Seqs

  /** `Quadruple`: operator, two arguments, result. */
  datatype Quad = Quad(op: string, arg1: string, arg2: string, result: string)

  /** The `n`-th temporary name, as `newTemp` spells it. */
  function TempName(n: nat): (s: string)
    ensures |s| >= 2 && s[0] == 't' && s[1..] == NatToString(n)
  {
    "t" + NatToString(n)
  }

  lemma TempNameInjective(m: nat, n: nat)
    requires TempName(m) == TempName(n)
    ensures m == n
  {
    NatToStringInjective(m, n);
  }

  /** What the walk has built: the quadruples of this call and the
      counter of `newTemp`. */
  datatype GenState = GenState(ir: seq<Quad>, count: nat)

  /** The state after `gen(node)` and the name it returned. */
  datatype Out = Out(st: GenState, name: string)

  /** `gen`: a null pointer or a leaf emits nothing (a leaf yields its own
      text); an operator node, an assignment and an initialised declaration
      are below; any other node walks all its children and yields "". */
  function GenNode(g: GenState, t: Ast): (r: Out)
    requires Indexable(t)
    ensures g.ir <= r.st.ir && g.count <= r.st.count
    decreases t, 2, 0
  {
    if t.Null? then Out(g, "")
    else if IsLeafKind(t.kind) then Out(g, t.value)
    else if IsBinaryKind(t.kind) then GenOperator(g, t)
    else if t.kind.Assign? || (t.kind.VarDecl? && |t.children| > 0) then GenCopy(g, t)
    else if t.kind.VarDecl? then Out(g, "")
    else Out(GenChildren(g, t, |t.children|), "")
  }

  /** An operator node: both operands first, then one quadruple into a
      fresh temporary, which is the node's name. */
  function GenOperator(g: GenState, t: Ast): (r: Out)
    requires Indexable(t) && t.Node? && IsBinaryKind(t.kind)
    ensures g.ir <= r.st.ir && g.count < r.st.count
    decreases t, 1, 0
  {
    var left := GenNode(g, t.children[0]);
    var right := GenNode(left.st, t.children[1]);
    var res := TempName(right.st.count);
    Out(GenState(right.st.ir + [Quad(KindName(t.kind), left.name, right.name, res)], right.st.count + 1), res)
  }

  /** An assignment or an initialised declaration: the value first, then
      a copy `=` into the name. An assignment yields the name, a
      declaration "". */
  function GenCopy(g: GenState, t: Ast): (r: Out)
    requires Indexable(t) && t.Node? && |t.children| > 0
    ensures g.ir <= r.st.ir && g.count <= r.st.count
    decreases t, 1, 0
  {
    var rhs := GenNode(g, t.children[0]);
    Out(GenState(rhs.st.ir + [Quad("=", rhs.name, "", t.value)], rhs.st.count), if t.kind.Assign? then t.value else "")
  }

  /** The loop over `children` after its first `n` rounds. */
  function GenChildren(g: GenState, t: Ast, n: nat): (r: GenState)
    requires t.Node? && n <= |t.children| && forall i | 0 <= i < |t.children| :: Indexable(t.children[i])
    ensures g.ir <= r.ir && g.count <= r.count
    decreases t, 1, n
  {
    if n == 0 then g else GenNode(GenChildren(g, t, n - 1), t.children[n - 1]).st
  }

  /** `generateIR` with the counter at `count`: a fresh list of quadruples
      and the counter it leaves behind (it is never reset). */
  function Generate(count: nat, root: Ast): GenState
    requires Indexable(root)
  {
    GenNode(GenState([], count), root).st
  }

  /** `tempVarCount` together with the vector `ir` that `gen` appends to. */
  class IrGenerator {
    var tempVarCount: nat
    var ir: seq<Quad>

    function State(): GenState
      reads this
    {
      GenState(ir, tempVarCount)
    }

    /** The counter as the program starts. */
    constructor ()
      ensures tempVarCount == 0 && ir == []
    {
      tempVarCount := 0;
      ir := [];
    }

    /** `newTemp`. */
    method NewTemp() returns (name: string)
      modifies this`tempVarCount
      ensures name == TempName(old(tempVarCount)) && tempVarCount == old(tempVarCount) + 1
    {
      name := TempName(tempVarCount);
      tempVarCount := tempVarCount + 1;
    }

    /** `gen`. */
    method Gen(node: Ast) returns (name: string)
      requires Indexable(node)
      modifies this
      ensures Out(State(), name) == GenNode(old(State()), node)
      decreases node, 2
    {
      if node.Null? {
        return "";
      }
      if IsLeafKind(node.kind) {
        return node.value;
      }
      if IsBinaryKind(node.kind) {
        name := EmitOperator(node);
        return;
      }
      if node.kind.Assign? {
        EmitCopy(node);
        return node.value;
      }
      if node.kind.VarDecl? {
        if |node.children| > 0 {
          EmitCopy(node);
        }
        return "";
      }
      WalkChildren(node);
      return "";
    }

    /** The operator branch of `gen`. */
    method EmitOperator(node: Ast) returns (res: string)
      requires Indexable(node) && node.Node? && IsBinaryKind(node.kind)
      modifies this
      ensures Out(State(), res) == GenOperator(old(State()), node)
      decreases node, 1
    {
      var t1 := Gen(node.children[0]);
      var t2 := Gen(node.children[1]);
      res := NewTemp();
      ir := ir + [Quad(KindName(node.kind), t1, t2, res)];
    }

    /** The copy `=` of an assignment or an initialised declaration. */
    method EmitCopy(node: Ast)
      requires Indexable(node) && node.Node? && |node.children| > 0
      modifies this
      ensures State() == GenCopy(old(State()), node).st
      decreases node, 1
    {
      var rhs := Gen(node.children[0]);
      ir := ir + [Quad("=", rhs, "", node.value)];
    }

    /** The loop of `gen` over the children of any other node. */
    method WalkChildren(node: Ast)
      requires Indexable(node) && node.Node?
      modifies this
      ensures State() == GenChildren(old(State()), node, |node.children|)
      decreases node, 1
    {
      var kids := node.children;
      ghost var start := State();
      for i := 0 to |kids|
        invariant State() == GenChildren(start, node, i)
      {
        ghost var before := State();
        var _ := Gen(kids[i]);
        assert State() == GenNode(before, node.children[i]).st;
      }
    }

    /** `generateIR`: the quadruples of `root`; the counter carries over
        to the next call. */
    method GenerateIR(root: Ast) returns (quads: seq<Quad>)
      requires Indexable(root)
      modifies this
      ensures quads == Generate(old(tempVarCount), root).ir
      ensures tempVarCount == Generate(old(tempVarCount), root).count
    {
      ir := [];
      var _ := Gen(root);
      quads := ir;
    }
  }

  // ---------------------------------------------------------------------
  // Counting: one quadruple per operator node, assignment and initialised
  // declaration, one temporary per operator node.
  // ---------------------------------------------------------------------

  /** What is counted: temporaries or quadruples. */
  datatype Measure = Temps | Quads

  /** Whether node `t` itself takes a temporary / emits a quadruple. */
  function Weight(t: Ast, m: Measure): nat
    requires t.Node?
  {
    match m
    case Temps => if IsBinaryKind(t.kind) then 1 else 0
    case Quads => if IsBinaryKind(t.kind) || t.kind.Assign? || (t.kind.VarDecl? && |t.children| > 0) then 1 else 0
  }

  /** The number of nodes of `t` that count under `m`. */
  function Count(t: Ast, m: Measure): nat
    decreases t, 1
  {
    if t.Null? then 0 else Weight(t, m) + ChildCount(t, |t.children|, m)
  }

  function ChildCount(t: Ast, n: nat, m: Measure): nat
    requires t.Node? && n <= |t.children|
    decreases t, 0, n
  {
    if n == 0 then 0 else ChildCount(t, n - 1, m) + Count(t.children[n - 1], m)
  }

  /** The results of the quadruples that define temporaries (every
      operator but the copy `=`). */
  function TempsOf(ir: seq<Quad>): seq<string> {
    if ir == [] then []
    else TempsOf(ir[..|ir| - 1]) + if ir[|ir| - 1].op != "=" then [ir[|ir| - 1].result] else []
  }

  /** `TempName(from)`, ..., `TempName(from + n - 1)`. */
  function TempRange(from: nat, n: nat): (r: seq<string>)
    ensures |r| == n
  {
    if n == 0 then [] else TempRange(from, n - 1) + [TempName(from + n - 1)]
  }

  lemma {:induction false} TempRangeAt(from: nat, n: nat, i: nat)
    requires i < n
    ensures TempRange(from, n)[i] == TempName(from + i)
  {
    if i < n - 1 {
      TempRangeAt(from, n - 1, i);
    }
  }

  lemma {:induction false} TempRangeConcat(from: nat, n: nat, m: nat)
    ensures TempRange(from, n) + TempRange(from + n, m) == TempRange(from, n + m)
  {
    if m > 0 {
      var last := [TempName(from + n + m - 1)];
      calc {
        TempRange(from, n) + TempRange(from + n, m);
        TempRange(from, n) + (TempRange(from + n, m - 1) + last);
        { AppendAssoc(TempRange(from, n), TempRange(from + n, m - 1), last); }
        (TempRange(from, n) + TempRange(from + n, m - 1)) + last;
        { TempRangeConcat(from, n, m - 1); }
        TempRange(from, n + (m - 1)) + last;
      }
    }
  }

  /** Temporaries are never reused: the names of one range are distinct. */
  lemma TempRangeDistinct(from: nat, n: nat, i: nat, j: nat)
    requires i < j < n
    ensures TempRange(from, n)[i] != TempRange(from, n)[j]
  {
    TempRangeAt(from, n, i);
    TempRangeAt(from, n, j);
    if TempName(from + i) == TempName(from + j) {
      TempNameInjective(from + i, from + j);
    }
  }

  lemma TempsOfAppend(ir: seq<Quad>, q: Quad)
    ensures TempsOf(ir + [q]) == TempsOf(ir) + if q.op != "=" then [q.result] else []
  {
    assert (ir + [q])[..|ir|] == ir;
  }

  /** From `g` to `r` the walk appended `quads` quadruples and took the
      next `temps` temporaries, in order. */
  predicate Took(g: GenState, r: GenState, temps: nat, quads: nat) {
    |r.ir| == |g.ir| + quads && r.count == g.count + temps &&
    TempsOf(r.ir) == TempsOf(g.ir) + TempRange(g.count, temps)
  }

  lemma TookChain(g: GenState, h: GenState, r: GenState, t1: nat, q1: nat, t2: nat, q2: nat, temps: nat, quads: nat)
    requires Took(g, h, t1, q1) && Took(h, r, t2, q2)
    requires temps == t1 + t2 && quads == q1 + q2
    ensures Took(g, r, temps, quads)
  {
    var a, b, c := TempsOf(g.ir), TempRange(g.count, t1), TempRange(h.count, t2);
    calc {
      TempsOf(r.ir);
      TempsOf(h.ir) + c;
      (a + b) + c;
      { AppendAssoc(a, b, c); }
      a + (b + c);
      { TempRangeConcat(g.count, t1, t2); assert b + c == TempRange(g.count, temps); }
      a + TempRange(g.count, temps);
    }
  }

  /** Two operands, then one quadruple into the next temporary. */
  lemma TookOperator(g: GenState, left: GenState, right: GenState, r: GenState, q: Quad,
                     tl: nat, ql: nat, tr: nat, qr: nat, temps: nat, quads: nat)
    requires Took(g, left, tl, ql) && Took(left, right, tr, qr)
    requires q.op != "=" && q.result == TempName(right.count) && r == GenState(right.ir + [q], right.count + 1)
    requires temps == tl + tr + 1 && quads == ql + qr + 1
    ensures Took(g, r, temps, quads)
  {
    TookChain(g, left, right, tl, ql, tr, qr, tl + tr, ql + qr);
    TookTemp(right, q, r);
    TookChain(g, right, r, tl + tr, ql + qr, 1, 1, temps, quads);
  }

  lemma TookTemp(h: GenState, q: Quad, r: GenState)
    requires q.op != "=" && q.result == TempName(h.count) && r == GenState(h.ir + [q], h.count + 1)
    ensures Took(h, r, 1, 1)
  {
    TempsOfAppend(h.ir, q);
  }

  /** A value, then one copy `=`, which takes no temporary. */
  lemma TookCopy(g: GenState, h: GenState, r: GenState, q: Quad, tc: nat, qc: nat, temps: nat, quads: nat)
    requires Took(g, h, tc, qc)
    requires q.op == "=" && r == GenState(h.ir + [q], h.count)
    requires temps == tc && quads == qc + 1
    ensures Took(g, r, temps, quads)
  {
    TempsOfAppend(h.ir, q);
    TookChain(g, h, r, tc, qc, 0, 1, temps, quads);
  }

  /** An operator node counts itself and its two operands. */
  lemma BinaryCount(t: Ast, m: Measure)
    requires t.Node? && IsBinaryKind(t.kind) && |t.children| == 2
    ensures Count(t, m) == Count(t.children[0], m) + Count(t.children[1], m) + 1
  {
    assert ChildCount(t, 1, m) == Count(t.children[0], m);
  }

  /** An assignment or initialised declaration with one child counts one
      quadruple and no temporary besides its value's. */
  lemma CopyCount(t: Ast, m: Measure)
    requires t.Node? && (t.kind.Assign? || t.kind.VarDecl?) && |t.children| == 1
    ensures Count(t, m) == Count(t.children[0], m) + (if m == Quads then 1 else 0)
  {
    assert ChildCount(t, 1, m) == Count(t.children[0], m);
  }

  /** For a tree the parser builds: `gen` appends one quadruple per
      operator node, assignment and initialised declaration, takes one
      temporary per operator node, and the temporaries it defines are the
      next ones of the counter, in order. */
  lemma {:induction false} GenCounts(g: GenState, t: Ast)
    requires WellShaped(t)
    ensures Took(g, GenNode(g, t).st, Count(t, Temps), Count(t, Quads))
    decreases t, 2
  {
    if t.Null? || IsLeafKind(t.kind) || (t.kind.VarDecl? && |t.children| == 0) {
      assert GenNode(g, t).st == g;
      QuietCount(t, Temps);
      QuietCount(t, Quads);
      NothingTaken(g);
    } else if IsBinaryKind(t.kind) {
      OperatorCounts(g, t);
    } else if t.kind.Assign? || t.kind.VarDecl? {
      CopyCounts(g, t);
    } else {
      assert GenNode(g, t).st == GenChildren(g, t, |t.children|);
      InnerCount(t, Temps);
      InnerCount(t, Quads);
      ChildrenCounts(g, t, |t.children|);
    }
  }

  lemma NothingTaken(g: GenState)
    ensures Took(g, g, 0, 0)
  {
    assert TempsOf(g.ir) + TempRange(g.count, 0) == TempsOf(g.ir);
  }

  /** Nodes that emit nothing count nothing. */
  lemma QuietCount(t: Ast, m: Measure)
    requires WellShaped(t) && (t.Null? || IsLeafKind(t.kind) || (t.kind.VarDecl? && |t.children| == 0))
    ensures Count(t, m) == 0
  {
  }

  /** A statement node counts what its children count. */
  lemma InnerCount(t: Ast, m: Measure)
    requires t.Node? && !IsBinaryKind(t.kind) && !t.kind.Assign? && !t.kind.VarDecl?
    ensures Count(t, m) == ChildCount(t, |t.children|, m)
  {
  }

  lemma {:induction false} OperatorCounts(g: GenState, t: Ast)
    requires WellShaped(t) && t.Node? && IsBinaryKind(t.kind)
    ensures Took(g, GenOperator(g, t).st, Count(t, Temps), Count(t, Quads))
    decreases t, 1
  {
    var l, rt := t.children[0], t.children[1];
    var left := GenNode(g, l);
    var right := GenNode(left.st, rt);
    GenCounts(g, l);
    GenCounts(left.st, rt);
    BinaryCount(t, Temps);
    BinaryCount(t, Quads);
    TookOperator(g, left.st, right.st, GenOperator(g, t).st,
                 Quad(KindName(t.kind), left.name, right.name, TempName(right.st.count)),
                 Count(l, Temps), Count(l, Quads), Count(rt, Temps), Count(rt, Quads), Count(t, Temps), Count(t, Quads));
  }

  lemma {:induction false} CopyCounts(g: GenState, t: Ast)
    requires WellShaped(t) && t.Node? && (t.kind.Assign? || t.kind.VarDecl?) && |t.children| > 0
    ensures Took(g, GenCopy(g, t).st, Count(t, Temps), Count(t, Quads))
    decreases t, 1
  {
    var c := t.children[0];
    var rhs := GenNode(g, c);
    GenCounts(g, c);
    CopyCount(t, Temps);
    CopyCount(t, Quads);
    TookCopy(g, rhs.st, GenCopy(g, t).st, Quad("=", rhs.name, "", t.value),
             Count(c, Temps), Count(c, Quads), Count(t, Temps), Count(t, Quads));
  }

  lemma {:induction false} ChildrenCounts(g: GenState, t: Ast, n: nat)
    requires WellShaped(t) && t.Node? && n <= |t.children|
    ensures Took(g, GenChildren(g, t, n), ChildCount(t, n, Temps), ChildCount(t, n, Quads))
    decreases t, 0, n, 1
  {
    if n > 0 {
      ChildrenCounts(g, t, n - 1);
      ChildStep(g, t, n);
    }
  }

  /** One more round of the child loop. */
  lemma ChildStep(g: GenState, t: Ast, n: nat)
    requires WellShaped(t) && t.Node? && 0 < n <= |t.children|
    requires Took(g, GenChildren(g, t, n - 1), ChildCount(t, n - 1, Temps), ChildCount(t, n - 1, Quads))
    ensures Took(g, GenChildren(g, t, n), ChildCount(t, n, Temps), ChildCount(t, n, Quads))
    decreases t, 0, n, 0
  {
    var mid := GenChildren(g, t, n - 1);
    var c := t.children[n - 1];
    GenCounts(mid, c);
    TookChain(g, mid, GenChildren(g, t, n), ChildCount(t, n - 1, Temps), ChildCount(t, n - 1, Quads),
              Count(c, Temps), Count(c, Quads), ChildCount(t, n, Temps), ChildCount(t, n, Quads));
  }

  // ---------------------------------------------------------------------
  // Every argument is available when it is used
  // ---------------------------------------------------------------------

  /** `a` is the text of a leaf of `t` (a literal or a variable name). */
  predicate Mentions(t: Ast, a: string) {
    t.Node? &&
    if IsLeafKind(t.kind) then t.value == a
    else exists i | 0 <= i < |t.children| :: Mentions(t.children[i], a)
  }

  /** `a` is empty, a leaf text of `t`, or the result of a quadruple before
      position `upto`. */
  predicate Available(ir: seq<Quad>, upto: nat, t: Ast, a: string)
    requires upto <= |ir|
  {
    a == "" || Mentions(t, a) || exists k | 0 <= k < upto :: ir[k].result == a
  }

  /** Both arguments of each quadruple in `[lo, hi)` are available before it. */
  predicate ArgsAvailable(ir: seq<Quad>, lo: nat, hi: nat, t: Ast)
    requires lo <= hi <= |ir|
  {
    forall i | lo <= i < hi :: Available(ir, i, t, ir[i].arg1) && Available(ir, i, t, ir[i].arg2)
  }

  /** `c` is the `j`-th child of the inner node `t`. */
  predicate ChildAt(t: Ast, j: nat, c: Ast) {
    t.Node? && !IsLeafKind(t.kind) && j < |t.children| && t.children[j] == c
  }

  lemma AvailableGrows(ir: seq<Quad>, upto: nat, c: Ast, ir': seq<Quad>, upto': nat, t: Ast, j: nat, a: string)
    requires upto <= |ir| && ir <= ir' && upto <= upto' <= |ir'|
    requires c == t || ChildAt(t, j, c)
    requires Available(ir, upto, c, a)
    ensures Available(ir', upto', t, a)
  {
    if a != "" && !Mentions(c, a) {
      var k :| 0 <= k < upto && ir[k].result == a;
      assert ir'[k] == ir[k];
    }
  }

  lemma ArgsAvailableGrow(ir: seq<Quad>, lo: nat, hi: nat, c: Ast, ir': seq<Quad>, t: Ast, j: nat)
    requires lo <= hi <= |ir| && ir <= ir'
    requires c == t || ChildAt(t, j, c)
    requires ArgsAvailable(ir, lo, hi, c)
    ensures ArgsAvailable(ir', lo, hi, t)
  {
    forall i | lo <= i < hi
      ensures Available(ir', i, t, ir'[i].arg1) && Available(ir', i, t, ir'[i].arg2)
    {
      assert ir'[i] == ir[i];
      AvailableGrows(ir, i, c, ir', i, t, j, ir[i].arg1);
      AvailableGrows(ir, i, c, ir', i, t, j, ir[i].arg2);
    }
  }

  lemma ArgsAvailableJoin(ir: seq<Quad>, a: nat, b: nat, c: nat, t: Ast)
    requires a <= b <= c <= |ir|
    requires ArgsAvailable(ir, a, b, t) && ArgsAvailable(ir, b, c, t)
    ensures ArgsAvailable(ir, a, c, t)
  {
  }

  /** What `gen` appends refers only to what exists: each argument of a
      new quadruple is empty, a literal or a name from the tree, or the
      result of an earlier quadruple, and so is the name `gen` returns. */
  lemma {:induction false} GenUsesOnlyAvailable(g: GenState, t: Ast)
    requires Indexable(t)
    ensures var r := GenNode(g, t);
            ArgsAvailable(r.st.ir, |g.ir|, |r.st.ir|, t) && Available(r.st.ir, |r.st.ir|, t, r.name)
    decreases t, 2
  {
    if t.Null? || IsLeafKind(t.kind) || (t.kind.VarDecl? && |t.children| == 0) {
    } else if IsBinaryKind(t.kind) {
      OperatorUsesOnlyAvailable(g, t);
    } else if t.kind.Assign? || t.kind.VarDecl? {
      CopyUsesOnlyAvailable(g, t);
    } else {
      ChildrenUseOnlyAvailable(g, t, |t.children|);
    }
  }

  lemma {:induction false} OperatorUsesOnlyAvailable(g: GenState, t: Ast)
    requires Indexable(t) && t.Node? && IsBinaryKind(t.kind)
    ensures var r := GenOperator(g, t);
            ArgsAvailable(r.st.ir, |g.ir|, |r.st.ir|, t) && Available(r.st.ir, |r.st.ir|, t, r.name)
    decreases t, 1
  {
    var l, rt := t.children[0], t.children[1];
    var left := GenNode(g, l);
    var right := GenNode(left.st, rt);
    var r := GenOperator(g, t);
    var n := |right.st.ir|;
    GenUsesOnlyAvailable(g, l);
    GenUsesOnlyAvailable(left.st, rt);
    ArgsAvailableGrow(left.st.ir, |g.ir|, |left.st.ir|, l, r.st.ir, t, 0);
    ArgsAvailableGrow(right.st.ir, |left.st.ir|, n, rt, r.st.ir, t, 1);
    AvailableGrows(left.st.ir, |left.st.ir|, l, r.st.ir, n, t, 0, left.name);
    AvailableGrows(right.st.ir, n, rt, r.st.ir, n, t, 1, right.name);
    assert ArgsAvailable(r.st.ir, n, n + 1, t);
    ArgsAvailableJoin(r.st.ir, |g.ir|, |left.st.ir|, n, t);
    ArgsAvailableJoin(r.st.ir, |g.ir|, n, n + 1, t);
    assert r.st.ir[n].result == r.name;
  }

  lemma {:induction false} CopyUsesOnlyAvailable(g: GenState, t: Ast)
    requires Indexable(t) && t.Node? && |t.children| > 0 && !IsLeafKind(t.kind)
    ensures var r := GenCopy(g, t);
            ArgsAvailable(r.st.ir, |g.ir|, |r.st.ir|, t) && Available(r.st.ir, |r.st.ir|, t, r.name)
    decreases t, 1
  {
    var c := t.children[0];
    var rhs := GenNode(g, c);
    var r := GenCopy(g, t);
    var n := |rhs.st.ir|;
    GenUsesOnlyAvailable(g, c);
    ArgsAvailableGrow(rhs.st.ir, |g.ir|, n, c, r.st.ir, t, 0);
    AvailableGrows(rhs.st.ir, n, c, r.st.ir, n, t, 0, rhs.name);
    assert ArgsAvailable(r.st.ir, n, n + 1, t);
    ArgsAvailableJoin(r.st.ir, |g.ir|, n, n + 1, t);
    if r.name != "" {
      assert r.st.ir[n].result == r.name;
    }
  }

  lemma {:induction false} ChildrenUseOnlyAvailable(g: GenState, t: Ast, n: nat)
    requires Indexable(t) && t.Node? && !IsLeafKind(t.kind) && n <= |t.children|
    ensures var r := GenChildren(g, t, n);
            ArgsAvailable(r.ir, |g.ir|, |r.ir|, t)
    decreases t, 0, n
  {
    if n > 0 {
      var mid := GenChildren(g, t, n - 1);
      var c := t.children[n - 1];
      var r := GenNode(mid, c);
      ChildrenUseOnlyAvailable(g, t, n - 1);
      GenUsesOnlyAvailable(mid, c);
      ArgsAvailableGrow(mid.ir, |g.ir|, |mid.ir|, t, r.st.ir, t, 0);
      ArgsAvailableGrow(r.st.ir, |mid.ir|, |r.st.ir|, c, r.st.ir, t, n - 1);
      ArgsAvailableJoin(r.st.ir, |g.ir|, |mid.ir|, |r.st.ir|, t);
    }
  }

  /** `generateIR` as a whole: every argument of every quadruple is empty,
      a literal or name of the program, or defined by an earlier one. */
  lemma ArgumentsDefinedBeforeUse(count: nat, root: Ast)
    requires Indexable(root)
    ensures var ir := Generate(count, root).ir;
            ArgsAvailable(ir, 0, |ir|, root)
  {
    GenUsesOnlyAvailable(GenState([], count), root);
  }

  /** Two calls in a row: the second call's temporaries continue where the
      first one's stopped, so they never clash. */
  lemma SecondRunShiftsTemps(count: nat, first: Ast, second: Ast)
    requires WellShaped(first) && WellShaped(second)
    ensures var g1 := Generate(count, first);
            var g2 := Generate(g1.count, second);
            TempsOf(g1.ir) == TempRange(count, Count(first, Temps)) &&
            g1.count == count + Count(first, Temps) &&
            TempsOf(g2.ir) == TempRange(g1.count, Count(second, Temps))
  {
    var g1 := Generate(count, first);
    GenCounts(GenState([], count), first);
    TookFromStart(count, g1, Count(first, Temps), Count(first, Quads));
    GenCounts(GenState([], g1.count), second);
    TookFromStart(g1.count, Generate(g1.count, second), Count(second, Temps), Count(second, Quads));
  }

  // ---------------------------------------------------------------------
  // The counter is the only state a call reads: the same tree generated
  // from another counter value gives the same quadruples, each temporary
  // `t<c + k>` becoming `t<c' + k>`.
  // ---------------------------------------------------------------------

  /** `a` in a run from counter `c` and `b` in a run from counter `c'` name
      the same thing: the same text, or the temporaries the same distance
      past the two starting values. */
  ghost predicate Shifted(a: string, b: string, c: nat, c': nat) {
    a == b || exists i: nat | c <= i :: a == TempName(i) && b == TempName(i - c + c')
  }

  ghost predicate QuadShifted(q: Quad, q': Quad, c: nat, c': nat) {
    q.op == q'.op && Shifted(q.arg1, q'.arg1, c, c') && Shifted(q.arg2, q'.arg2, c, c') &&
    Shifted(q.result, q'.result, c, c')
  }

  /** The two lists agree quadruple by quadruple, up to the temporaries. */
  ghost predicate QuadsShifted(a: seq<Quad>, b: seq<Quad>, c: nat, c': nat) {
    |a| == |b| && forall j | 0 <= j < |a| :: QuadShifted(a[j], b[j], c, c')
  }

  /** The counters of two runs are the same distance past their starts. */
  predicate Offset(g: GenState, g': GenState, c: nat, c': nat) {
    c <= g.count && g'.count == g.count - c + c'
  }

  /** From `g` to `r` one run appended what the other appended from `g'`
      to `r'`, up to the temporaries, and the counters stayed in step. */
  ghost predicate Rerun(g: GenState, r: GenState, g': GenState, r': GenState, c: nat, c': nat) {
    g.ir <= r.ir && g'.ir <= r'.ir && Offset(r, r', c, c') &&
    QuadsShifted(r.ir[|g.ir|..], r'.ir[|g'.ir|..], c, c')
  }

  lemma RerunNothing(g: GenState, g': GenState, c: nat, c': nat)
    requires Offset(g, g', c, c')
    ensures Rerun(g, g, g', g', c, c')
  {
  }

  lemma RerunChain(g: GenState, h: GenState, r: GenState, g': GenState, h': GenState, r': GenState, c: nat, c': nat)
    requires Rerun(g, h, g', h', c, c') && Rerun(h, r, h', r', c, c')
    ensures Rerun(g, r, g', r', c, c')
  {
    var a, b := h.ir[|g.ir|..], r.ir[|h.ir|..];
    var a', b' := h'.ir[|g'.ir|..], r'.ir[|h'.ir|..];
    assert r.ir[|g.ir|..] == a + b;
    assert r'.ir[|g'.ir|..] == a' + b';
    forall j | 0 <= j < |a + b|
      ensures QuadShifted((a + b)[j], (a' + b')[j], c, c')
    {
      if j >= |a| {
        assert (a + b)[j] == b[j - |a|] && (a' + b')[j] == b'[j - |a|];
      }
    }
  }

  /** One more quadruple on each side. */
  lemma RerunAppend(g: GenState, h: GenState, g': GenState, h': GenState, q: Quad, q': Quad, r: GenState, r': GenState,
                    c: nat, c': nat)
    requires Rerun(g, h, g', h', c, c') && QuadShifted(q, q', c, c')
    requires r.ir == h.ir + [q] && r'.ir == h'.ir + [q'] && Offset(r, r', c, c')
    ensures Rerun(g, r, g', r', c, c')
  {
    var s := GenState(h.ir + [q], h.count);
    var s' := GenState(h'.ir + [q'], h'.count);
    assert s.ir[|h.ir|..] == [q] && s'.ir[|h'.ir|..] == [q'];
    RerunChain(g, h, r, g', h', r', c, c');
  }

  /** The next temporaries of two runs in step. */
  lemma NextTempShifted(n: nat, n': nat, c: nat, c': nat)
    requires c <= n && n' == n - c + c'
    ensures Shifted(TempName(n), TempName(n'), c, c')
  {
  }

  /** `gen` on the same node from two states whose counters are in step. */
  lemma {:induction false} GenShifted(g: GenState, g': GenState, t: Ast, c: nat, c': nat)
    requires Indexable(t) && Offset(g, g', c, c')
    ensures var r, r' := GenNode(g, t), GenNode(g', t);
            Rerun(g, r.st, g', r'.st, c, c') && Shifted(r.name, r'.name, c, c')
    decreases t, 2
  {
    if t.Null? || IsLeafKind(t.kind) || (t.kind.VarDecl? && |t.children| == 0) {
      RerunNothing(g, g', c, c');
    } else if IsBinaryKind(t.kind) {
      OperatorShifted(g, g', t, c, c');
    } else if t.kind.Assign? || t.kind.VarDecl? {
      CopyShifted(g, g', t, c, c');
    } else {
      ChildrenShifted(g, g', t, |t.children|, c, c');
    }
  }

  lemma {:induction false} OperatorShifted(g: GenState, g': GenState, t: Ast, c: nat, c': nat)
    requires Indexable(t) && t.Node? && IsBinaryKind(t.kind) && Offset(g, g', c, c')
    ensures var r, r' := GenOperator(g, t), GenOperator(g', t);
            Rerun(g, r.st, g', r'.st, c, c') && Shifted(r.name, r'.name, c, c')
    decreases t, 1
  {
    var left, left' := GenNode(g, t.children[0]), GenNode(g', t.children[0]);
    GenShifted(g, g', t.children[0], c, c');
    var right, right' := GenNode(left.st, t.children[1]), GenNode(left'.st, t.children[1]);
    GenShifted(left.st, left'.st, t.children[1], c, c');
    RerunChain(g, left.st, right.st, g', left'.st, right'.st, c, c');
    var res, res' := TempName(right.st.count), TempName(right'.st.count);
    NextTempShifted(right.st.count, right'.st.count, c, c');
    var q, q' := Quad(KindName(t.kind), left.name, right.name, res), Quad(KindName(t.kind), left'.name, right'.name, res');
    RerunAppend(g, right.st, g', right'.st, q, q', GenOperator(g, t).st, GenOperator(g', t).st, c, c');
  }

  lemma {:induction false} CopyShifted(g: GenState, g': GenState, t: Ast, c: nat, c': nat)
    requires Indexable(t) && t.Node? && |t.children| > 0 && Offset(g, g', c, c')
    ensures var r, r' := GenCopy(g, t), GenCopy(g', t);
            Rerun(g, r.st, g', r'.st, c, c') && Shifted(r.name, r'.name, c, c')
    decreases t, 1
  {
    var rhs, rhs' := GenNode(g, t.children[0]), GenNode(g', t.children[0]);
    GenShifted(g, g', t.children[0], c, c');
    var q, q' := Quad("=", rhs.name, "", t.value), Quad("=", rhs'.name, "", t.value);
    RerunAppend(g, rhs.st, g', rhs'.st, q, q', GenCopy(g, t).st, GenCopy(g', t).st, c, c');
  }

  lemma {:induction false} ChildrenShifted(g: GenState, g': GenState, t: Ast, n: nat, c: nat, c': nat)
    requires t.Node? && n <= |t.children| && (forall i | 0 <= i < |t.children| :: Indexable(t.children[i]))
    requires Offset(g, g', c, c')
    ensures Rerun(g, GenChildren(g, t, n), g', GenChildren(g', t, n), c, c')
    decreases t, 0, n
  {
    if n == 0 {
      RerunNothing(g, g', c, c');
    } else {
      var mid, mid' := GenChildren(g, t, n - 1), GenChildren(g', t, n - 1);
      ChildrenShifted(g, g', t, n - 1, c, c');
      GenShifted(mid, mid', t.children[n - 1], c, c');
      RerunChain(g, mid, GenChildren(g, t, n), g', mid', GenChildren(g', t, n), c, c');
    }
  }

  /** `generateIR` on the same tree from counters `c` and `c'`: as many
      quadruples, the same operators, and each argument and result either
      the same text or `t<c + k>` against `t<c' + k>`; both counters move
      by the same amount. */
  lemma RerunRenamesTemps(c: nat, c': nat, root: Ast)
    requires Indexable(root)
    ensures var g, g' := Generate(c, root), Generate(c', root);
            QuadsShifted(g.ir, g'.ir, c, c') && g'.count - c' == g.count - c
  {
    var g0, g0' := GenState([], c), GenState([], c');
    GenShifted(g0, g0', root, c, c');
    assert Generate(c, root).ir[0..] == Generate(c, root).ir;
    assert Generate(c', root).ir[0..] == Generate(c', root).ir;
  }

  /** What one call of `generateIR` takes, starting from an empty list. */
  lemma TookFromStart(count: nat, r: GenState, temps: nat, quads: nat)
    requires Took(GenState([], count), r, temps, quads)
    ensures TempsOf(r.ir) == TempRange(count, temps) && r.count == count + temps && |r.ir| == quads
  {
    assert TempsOf([]) == [];
    assert [] + TempRange(count, temps) == TempRange(count, temps);
  }

  /** An integer literal leaf on line 1. */
  function Lit(v: string): Ast {
    Node(IntLit, v, "", 1, [])
  }

  const Product := Binary(Mul, Lit("2"), Lit("3"))
  const Sum := Binary(Add, Lit("1"), Product)

  lemma ProductExample()
    ensures GenNode(GenState([], 0), Product) == Out(GenState([Quad("Mul", "2", "3", "t0")], 1), "t0")
  {
    assert TempName(0) == "t0";
  }

  lemma SumExample()
    ensures GenNode(GenState([], 0), Sum) == Out(GenState([Quad("Mul", "2", "3", "t0"), Quad("Add", "1", "t0", "t1")], 2), "t1")
  {
    ProductExample();
    assert TempName(1) == "t1";
  }

  const AssignX := Node(Assign, "x", "", 1, [Sum])

  /** `x = 1 + 2 * 3;` gives `t0 = 2 * 3`, `t1 = 1 + t0`, `x = t1`. */
  lemma AssignmentExample()
    ensures Generate(0, AssignX).ir == [Quad("Mul", "2", "3", "t0"), Quad("Add", "1", "t0", "t1"), Quad("=", "t1", "", "x")]
  {
    var g0 := GenState([], 0);
    SumExample();
    assert GenNode(g0, AssignX) == GenCopy(g0, AssignX);
    assert GenNode(g0, AssignX.children[0]) == Out(GenState([Quad("Mul", "2", "3", "t0"), Quad("Add", "1", "t0", "t1")], 2), "t1");
  }
}
