/** The semantic checker of src/semantic.cpp: one pre-order walk over the
    tree with a single flat symbol table (name to declared type) and a
    list of diagnostics, which the source writes to standard error. */
module Semantic {
  import opened Syntax

  /** The two messages `visit` can print. */
  datatype Diagnostic =
    | TypeMismatch(name: string, line: int)   // declared or recorded type differs from the value's
    | Undefined(name: string, line: int)      // assignment to a name never declared

  type Table = map<string, string>

  /** What the walk has built so far: the symbol table and the diagnostics. */
  datatype Sem = Sem(table: Table, diags: seq<Diagnostic>)

  /** `exprType`: the type of a literal, the recorded type of a variable
      (empty when it was never declared), "int" for every operator node
      whatever its operands are, and empty otherwise. */
  function ExprType(table: Table, e: Ast): (r: string)
    ensures r == "" || r == "int" || r == "String" || (e.Node? && e.kind.Var? && e.value in table && r == table[e.value])
    ensures e.Node? && e.kind.Var? && e.value !in table ==> r == ""
  {
    if e.Null? then ""
    else match e.kind
      case IntLit => "int"
      case Str => "String"
      case Var => if e.value in table then table[e.value] else ""
      case Add | Sub | Mul | Lt | Eq => "int"
      case _ => ""
  }

  /** The source reads `children[0]` of an assignment without checking
      that it exists. */
  predicate Checkable(t: Ast) {
    match t
    case Null => true
    case Node(k, _, _, _, kids) =>
      (k.Assign? ==> |kids| >= 1) && forall i | 0 <= i < |kids| :: Checkable(kids[i])
  }

  lemma {:induction false} WellShapedIsCheckable(t: Ast)
    requires WellShaped(t)
    ensures Checkable(t)
  {
    match t
    case Null =>
    case Node(k, _, _, _, kids) =>
      forall i | 0 <= i < |kids| ensures Checkable(kids[i]) {
        WellShapedIsCheckable(kids[i]);
      }
  }

  /** What `visit` does at a node before it walks the children: a
      declaration records (or overwrites) its type and then checks its
      initialiser against it; an assignment checks that its name was
      declared and, if so, that the value has the recorded type. An empty
      value type is never a mismatch. */
  function Check(st: Sem, t: Ast): (r: Sem)
    requires t.Node? && t.kind.Assign? ==> |t.children| >= 1
    ensures r.table.Keys == st.table.Keys + (if t.Node? && t.kind.VarDecl? then {t.value} else {})
    ensures t.Node? && t.kind.VarDecl? ==> r.table[t.value] == t.varType
    ensures forall x | x in st.table && !(t.Node? && t.kind.VarDecl? && x == t.value) :: r.table[x] == st.table[x]
    ensures st.diags <= r.diags && |r.diags| <= |st.diags| + 1
  {
    match t
    case Null => st
    case Node(k, name, varType, line, kids) =>
      if k.VarDecl? then
        var table := st.table[name := varType];
        var rhsType := if |kids| > 0 then ExprType(table, kids[0]) else "";
        Sem(table, st.diags + if rhsType != "" && rhsType != varType then [TypeMismatch(name, line)] else [])
      else if k.Assign? then
        if name !in st.table then Sem(st.table, st.diags + [Undefined(name, line)])
        else
          var rhsType := ExprType(st.table, kids[0]);
          Sem(st.table, st.diags + if rhsType != "" && rhsType != st.table[name] then [TypeMismatch(name, line)] else [])
      else st
  }

  /** `visit`: the node's own check, then its children from left to right.
      Names are never removed, so a declaration stays visible to everything
      visited after it, inside or outside its block; diagnostics are only
      ever appended. */
  function Walk(st: Sem, t: Ast): (r: Sem)
    requires Checkable(t)
    ensures st.table.Keys <= r.table.Keys && st.diags <= r.diags
    decreases t, if t.Null? then 0 else |t.children| + 1
  {
    if t.Null? then st else WalkChildren(Check(st, t), t, |t.children|)
  }

  /** The loop over `children` after its first `n` rounds. */
  function WalkChildren(st: Sem, t: Ast, n: nat): (r: Sem)
    requires t.Node? && n <= |t.children| && forall i | 0 <= i < |t.children| :: Checkable(t.children[i])
    ensures st.table.Keys <= r.table.Keys && st.diags <= r.diags
    decreases t, n
  {
    if n == 0 then st else Walk(WalkChildren(st, t, n - 1), t.children[n - 1])
  }

  /** `checkSemantics`' diagnostics: the walk from an empty table. */
  function Diagnostics(root: Ast): seq<Diagnostic>
    requires Checkable(root)
  {
    Walk(Sem(map[], []), root).diags
  }

  /** The mutable state shared by the two lambdas of `checkSemantics`. */
  class SemanticChecker {
    var symbolTable: Table
    var diagnostics: seq<Diagnostic>

    function State(): Sem
      reads this
    {
      Sem(symbolTable, diagnostics)
    }

    constructor ()
      ensures State() == Sem(map[], [])
    {
      symbolTable := map[];
      diagnostics := [];
    }

    /** `visit`. */
    method Visit(node: Ast)
      requires Checkable(node)
      modifies this
      ensures State() == Walk(old(State()), node)
      decreases node
    {
      if node.Null? {
        return;
      }
      CheckNode(node);
      ghost var checked := State();
      for i := 0 to |node.children|
        invariant State() == WalkChildren(checked, node, i)
      {
        Visit(node.children[i]);
      }
    }

    /** The part of `visit` before the loop over the children. */
    method CheckNode(node: Ast)
      requires node.Node? && (node.kind.Assign? ==> |node.children| >= 1)
      modifies this
      ensures State() == Check(old(State()), node)
    {
      if node.kind.VarDecl? {
        symbolTable := symbolTable[node.value := node.varType];
        if |node.children| > 0 {
          var rhsType := ExprType(symbolTable, node.children[0]);
          if rhsType != "" && rhsType != node.varType {
            diagnostics := diagnostics + [TypeMismatch(node.value, node.line)];
          }
        }
      }
      if node.kind.Assign? {
        if node.value !in symbolTable {
          diagnostics := diagnostics + [Undefined(node.value, node.line)];
        } else {
          var varType := symbolTable[node.value];
          var rhsType := ExprType(symbolTable, node.children[0]);
          if rhsType != "" && rhsType != varType {
            diagnostics := diagnostics + [TypeMismatch(node.value, node.line)];
          }
        }
      }
    }
  }

  /** `checkSemantics`: always true, whatever it reported. */
  method CheckSemantics(root: Ast) returns (ok: bool, diagnostics: seq<Diagnostic>)
    requires Checkable(root)
    ensures ok && diagnostics == Diagnostics(root)
  {
    var checker := new SemanticChecker();
    checker.Visit(root);
    return true, checker.diagnostics;
  }

  // ---------------------------------------------------------------------
  // Properties of the walk
  // ---------------------------------------------------------------------

  /** No declaration and no assignment anywhere in `t`: an expression. */
  predicate StatementFree(t: Ast) {
    match t
    case Null => true
    case Node(k, _, _, _, kids) =>
      !k.VarDecl? && !k.Assign? && forall i | 0 <= i < |kids| :: StatementFree(kids[i])
  }

  /** Walking an expression changes nothing: in particular the use of a
      variable that was never declared is not reported. */
  lemma {:induction false} ExpressionsAreSilent(st: Sem, t: Ast)
    requires Checkable(t) && StatementFree(t)
    ensures Walk(st, t) == st
    decreases t, 1
  {
    if t.Node? {
      ChildExpressionsAreSilent(st, t, |t.children|);
    }
  }

  lemma {:induction false} ChildExpressionsAreSilent(st: Sem, t: Ast, n: nat)
    requires t.Node? && n <= |t.children| && Checkable(t) && StatementFree(t)
    ensures WalkChildren(st, t, n) == st
    decreases t, 0, n
  {
    if n > 0 {
      ChildExpressionsAreSilent(st, t, n - 1);
      ExpressionsAreSilent(st, t.children[n - 1]);
    }
  }

  /** The number of declarations and assignments in `t`. */
  function Statements(t: Ast): nat
    decreases t, 1
  {
    if t.Null? then 0
    else (if t.kind.VarDecl? || t.kind.Assign? then 1 else 0) + ChildStatements(t, |t.children|)
  }

  function ChildStatements(t: Ast, n: nat): nat
    requires t.Node? && n <= |t.children|
    decreases t, 0, n
  {
    if n == 0 then 0 else ChildStatements(t, n - 1) + Statements(t.children[n - 1])
  }

  /** At most one diagnostic per declaration or assignment. */
  lemma {:induction false} DiagnosticsBound(st: Sem, t: Ast)
    requires Checkable(t)
    ensures |Walk(st, t).diags| <= |st.diags| + Statements(t)
    decreases t, 1
  {
    if t.Node? {
      ChildDiagnosticsBound(Check(st, t), t, |t.children|);
    }
  }

  lemma {:induction false} ChildDiagnosticsBound(st: Sem, t: Ast, n: nat)
    requires t.Node? && n <= |t.children| && Checkable(t)
    ensures |WalkChildren(st, t, n).diags| <= |st.diags| + ChildStatements(t, n)
    decreases t, 0, n
  {
    if n > 0 {
      ChildDiagnosticsBound(st, t, n - 1);
      DiagnosticsBound(WalkChildren(st, t, n - 1), t.children[n - 1]);
    }
  }

  /** An assignment `name = value` whose value is an expression: exactly
      one `Undefined` when the name was never declared; otherwise a
      `TypeMismatch` exactly when the value has a non-empty type other
      than the recorded one. The table is left as it was. */
  lemma AssignmentDiagnostics(st: Sem, name: string, line: int, value: Ast)
    requires Checkable(value) && StatementFree(value)
    ensures var r := Walk(st, Node(Assign, name, "", line, [value]));
            r.table == st.table &&
            (name !in st.table ==> r.diags == st.diags + [Undefined(name, line)]) &&
            (name in st.table ==>
               var vt := ExprType(st.table, value);
               r.diags == st.diags + if vt != "" && vt != st.table[name] then [TypeMismatch(name, line)] else [])
  {
    var t := Node(Assign, name, "", line, [value]);
    WalkOne(st, t);
    ExpressionsAreSilent(Check(st, t), value);
  }

  /** A declaration records its type, replacing any earlier one, before
      its initialiser is typed: so `int x = x;` is accepted. */
  lemma DeclarationDiagnostics(st: Sem, name: string, varType: string, line: int, init: seq<Ast>)
    requires |init| <= 1 && forall i | 0 <= i < |init| :: Checkable(init[i]) && StatementFree(init[i])
    ensures var r := Walk(st, Node(VarDecl, name, varType, line, init));
            r.table == st.table[name := varType] &&
            (init == [] ==> r.diags == st.diags) &&
            (init != [] ==>
               var vt := ExprType(st.table[name := varType], init[0]);
               r.diags == st.diags + if vt != "" && vt != varType then [TypeMismatch(name, line)] else [])
  {
    var t := Node(VarDecl, name, varType, line, init);
    if init != [] {
      WalkOne(st, t);
      ExpressionsAreSilent(Check(st, t), init[0]);
    }
  }

  /** The walk over a node with one child. */
  lemma WalkOne(st: Sem, t: Ast)
    requires Checkable(t) && t.Node? && |t.children| == 1
    ensures Walk(st, t) == Walk(Check(st, t), t.children[0])
  {
    assert WalkChildren(Check(st, t), t, 0) == Check(st, t);
  }

  /** The walk over a block of two statements. */
  lemma WalkPair(st: Sem, a: Ast, b: Ast)
    requires Checkable(a) && Checkable(b)
    ensures Walk(st, Node(Block, "", "", 0, [a, b])) == Walk(Walk(st, a), b)
  {
    var t := Node(Block, "", "", 0, [a, b]);
    assert WalkChildren(st, t, 1) == Walk(st, a) by {
      assert WalkChildren(st, t, 0) == st;
    }
  }

  /** The walk is in pre-order over one flat table: using a name before
      its declaration is reported even though the declaration follows in
      the same block. */
  lemma UseBeforeDeclaration()
    ensures Diagnostics(Node(Block, "", "", 0, [Node(Assign, "x", "", 1, [Node(IntLit, "1", "", 1, [])]),
                                                Node(VarDecl, "x", "int", 2, [])]))
            == [Undefined("x", 1)]
  {
    var one := Node(IntLit, "1", "", 1, []);
    var a := Node(Assign, "x", "", 1, [one]);
    var st0 := Sem(map[], []);
    AssignmentDiagnostics(st0, "x", 1, one);
    DeclarationDiagnostics(Walk(st0, a), "x", "int", 2, []);
    WalkPair(st0, a, Node(VarDecl, "x", "int", 2, []));
  }

  /** A declaration inside a nested block is still visible after that
      block: there is one table for the whole program. Here `{ { String x; }
      x = "..."; }` is accepted, whatever the name, text and lines. */
  lemma NestedDeclarationOutlivesBlock(x: string, text: string, l1: int, l2: int)
    ensures Diagnostics(Node(Block, "", "", 0, [Node(Block, "", "", 0, [Node(VarDecl, x, "String", l1, [])]),
                                                Node(Assign, x, "", l2, [Node(Str, text, "", l2, [])])]))
            == []
  {
    var inner := Node(Block, "", "", 0, [Node(VarDecl, x, "String", l1, [])]);
    var str := Node(Str, text, "", l2, []);
    var st1 := Sem(map[x := "String"], []);
    InnerBlockDeclares(x, l1);
    AssignmentDiagnostics(st1, x, l2, str);
    WalkPair(Sem(map[], []), inner, Node(Assign, x, "", l2, [str]));
  }

  /** The walk over `{ String x; }` from an empty table records `x`. */
  lemma InnerBlockDeclares(x: string, l1: int)
    ensures Walk(Sem(map[], []), Node(Block, "", "", 0, [Node(VarDecl, x, "String", l1, [])]))
            == Sem(map[x := "String"], [])
  {
    var d := Node(VarDecl, x, "String", l1, []);
    var st0 := Sem(map[], []);
    DeclarationDiagnostics(st0, x, "String", l1, []);
    WalkOne(st0, Node(Block, "", "", 0, [d]));
  }
}
