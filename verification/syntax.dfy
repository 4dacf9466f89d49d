/** The abstract syntax tree shared by the parser, the semantic checker, the
    IR generator and the DOT exporter (`struct ASTNode`, src/parser.h). */
module Syntax {

  /** The node types the parser creates; `KindName` gives the source's string. */
  datatype Kind =
    | Program | Block | VarDecl | Assign | If | While
    | Add | Sub | Mul | Lt | Eq
    | IntLit | Var | Str

  function KindName(k: Kind): string {
    match k
    case Program => "Program"
    case Block => "Block"
    case VarDecl => "VarDecl"
    case Assign => "Assign"
    case If => "If"
    case While => "While"
    case Add => "Add"
    case Sub => "Sub"
    case Mul => "Mul"
    case Lt => "Lt"
    case Eq => "Eq"
    case IntLit => "Int"
    case Var => "Var"
    case Str => "Str"
  }

  predicate IsBinaryKind(k: Kind) {
    k.Add? || k.Sub? || k.Mul? || k.Lt? || k.Eq?
  }

  predicate IsLeafKind(k: Kind) {
    k.IntLit? || k.Var? || k.Str?
  }

  /** A possibly-null node pointer: `Null` stands for a null `ASTPtr`, which
      the parser stores as a child when a sub-parse fails. */
  datatype Ast =
    | Null
    | Node(kind: Kind, value: string, varType: string, line: int, children: seq<Ast>)

  /** `makeNode(type, value, line)`: no declared type and no children yet. */
  function MakeNode(k: Kind, value: string, line: int): (r: Ast)
    ensures r.Node? && r.kind == k && r.value == value && r.line == line
    ensures r.varType == "" && r.children == []
  {
    Node(k, value, "", line, [])
  }

  /** A binary node as the parser's operator loops build it: `makeNode(op)`
      (empty value, line 0) with the two operands pushed in order. */
  function Binary(k: Kind, left: Ast, right: Ast): (r: Ast)
    requires IsBinaryKind(k)
    ensures WellShaped(left) && WellShaped(right) ==> WellShaped(r)
  {
    var r := Node(k, "", "", 0, [left, right]);
    assert ShapeOk(k, 2);
    r
  }

  /** The children that the checker and the generator index without a bound
      check exist: binary nodes have two, an assignment has one. */
  predicate Indexable(t: Ast) {
    match t
    case Null => true
    case Node(k, _, _, _, kids) =>
      (IsBinaryKind(k) ==> |kids| >= 2)
      && (k.Assign? ==> |kids| >= 1)
      && forall i | 0 <= i < |kids| :: Indexable(kids[i])
  }

  /** The exact child counts of a tree the parser builds. */
  predicate ShapeOk(k: Kind, n: nat) {
    match k
    case Program => n == 1
    case Block => true
    case VarDecl => n <= 1
    case Assign => n == 1
    case If => n == 3
    case While => n == 2
    case IntLit => n == 0
    case Var => n == 0
    case Str => n == 0
    case _ => n == 2
  }

  /** A tree the parser builds; the generator can index such a tree. */
  predicate WellShaped(t: Ast)
    ensures WellShaped(t) ==> Indexable(t)
  {
    match t
    case Null => true
    case Node(k, _, _, _, kids) =>
      ShapeOk(k, |kids|) && forall i | 0 <= i < |kids| :: WellShaped(kids[i])
  }
}
