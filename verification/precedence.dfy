/** Operator precedence and associativity of the expression grammar of
    src/parser.cpp: tokens that spell an expression tree with the fewest
    parentheses the grammar needs parse back to that same tree, with no
    error. Multiplication binds tighter than `+`/`-`, which bind tighter
    than `<`/`=`, and every level associates to the left. */
module Precedence {
  import opened Tokens
  import opened Syntax
  import opened ParserSpec

  /** The trees `parseExpression` builds without error: leaves as
      `parsePrimary` makes them, binary nodes as the operator loops make them. */
  predicate IsExpr(e: Ast)
    ensures IsExpr(e) ==> WellShaped(e)
  {
    match e
    case Null => false
    case Node(k, v, t, line, kids) =>
      if IsLeafKind(k) then t == "" && kids == []
      else IsBinaryKind(k) && v == "" && t == "" && line == 0 && |kids| == 2
           && IsExpr(kids[0]) && IsExpr(kids[1])
  }

  /** Binding strength: 4 for a leaf, 3 for `*`, 2 for `+`/`-`, 1 for `<`/`=`. */
  function Prec(e: Ast): nat {
    if e.Node? && e.kind.Mul? then 3
    else if e.Node? && (e.kind.Add? || e.kind.Sub?) then 2
    else if e.Node? && (e.kind.Lt? || e.kind.Eq?) then 1
    else 4
  }

  function OpChar(k: Kind): char
    requires IsBinaryKind(k)
  {
    match k
    case Add => '+'
    case Sub => '-'
    case Mul => '*'
    case Lt => '<'
    case Eq => '='
  }

  datatype Option<T> = None | Some(value: T)

  /** The token at `pos` is one `parsePrimary` turns into the leaf `e`. */
  predicate LeafAt(c: Ctx, pos: nat, e: Ast)
    requires IsExpr(e) && IsLeafKind(e.kind)
  {
    pos < |c.tokens| && c.tokens[pos].line == e.line &&
    var v := c.tokens[pos].value;
    match e.kind
    case Var => c.tokens[pos].tokenType == Identifier && 0 <= v < |c.ids| && c.ids[v] == e.value
    case IntLit => c.tokens[pos].tokenType == IntegerLiteral && 0 <= v < |c.consts| && c.consts[v] == e.value
    case Str => c.tokens[pos].tokenType == StringLiteral && 0 <= v < |c.consts| && c.consts[v] == e.value
  }

  /** The operator token of a binary node of kind `k` is at `n`. */
  predicate OpAt(c: Ctx, n: nat, k: Kind)
    requires IsBinaryKind(k)
  {
    Matches(c, n, Operator, OpChar(k) as int)
  }

  /** The tokens from `pos` on spell `e` where the grammar expects level
      `lvl` (1 relational, 2 additive, 3 multiplicative, 4 primary), with
      the fewest parentheses: one pair around a node that binds more
      loosely than `lvl`, a leaf token, or left operand, operator and right
      operand, the right one a level up since every operator loop
      associates to the left. The result is where the spelling ends, or
      `None` when the tokens are laid out otherwise. */
  function SpellEnd(c: Ctx, pos: nat, e: Ast, lvl: nat): (r: Option<nat>)
    requires IsExpr(e) && 1 <= lvl <= 4
    ensures r.Some? ==> pos < r.value <= |c.tokens|
    decreases e, if Prec(e) < lvl then 1 else 0
  {
    if Prec(e) < lvl then
      if !Matches(c, pos, Delimiter, '(' as int) then None
      else match SpellEnd(c, pos + 1, e, 1)
        case None => None
        case Some(k) => if Matches(c, k, Delimiter, ')' as int) then Some(k + 1) else None
    else if IsLeafKind(e.kind) then
      if LeafAt(c, pos, e) then Some(pos + 1) else None
    else
      match SpellEnd(c, pos, e.children[0], Prec(e))
      case None => None
      case Some(mid) =>
        if OpAt(c, mid, e.kind) then SpellEnd(c, mid + 1, e.children[1], Prec(e) + 1) else None
  }

  /** The level of the operator at `n` (0 for anything that is not one). */
  function OpPrecAt(c: Ctx, n: nat): nat {
    if n < |c.tokens| && c.tokens[n].tokenType == Operator then CharPrec(c.tokens[n].value) else 0
  }

  /** The level of an operator character. */
  function CharPrec(v: int): nat {
    if v == '*' as int then 3
    else if v == '+' as int || v == '-' as int then 2
    else if v == '<' as int || v == '=' as int then 1
    else 0
  }

  /** How many levels away `lvl` is from `e`'s own level, counting
      1 -> 2 -> 3 -> 4 -> 1: the proofs move through the levels that way. */
  function Rank(e: Ast, lvl: nat): nat
    requires 1 <= lvl <= 4
  {
    if lvl <= Prec(e) then Prec(e) - lvl else Prec(e) + 4 - lvl
  }

  /** A node that does not belong to level `lvl` is spelled the same way
      one level up. */
  lemma LevelUp(e: Ast, c: Ctx, pos: nat, lvl: nat)
    requires IsExpr(e) && 1 <= lvl <= 3 && Prec(e) != lvl
    ensures SpellEnd(c, pos, e, lvl + 1) == SpellEnd(c, pos, e, lvl)
  {
  }

  /** The parts of a binary node spelled at its own level `lvl`: the left
      operand up to `mid`, the operator at `mid`, the right operand (one
      level up, at `up`) from `mid + 1` to `end`. */
  lemma Parts(e: Ast, c: Ctx, pos: nat, lvl: nat, up: nat, end: nat) returns (mid: nat)
    requires IsExpr(e) && 1 <= lvl <= 3 && up == lvl + 1 && Prec(e) == lvl
    requires SpellEnd(c, pos, e, lvl) == Some(end)
    ensures IsBinaryKind(e.kind) && e == Binary(e.kind, e.children[0], e.children[1])
    ensures IsExpr(e.children[0]) && IsExpr(e.children[1])
    ensures SpellEnd(c, pos, e.children[0], lvl) == Some(mid)
    ensures OpAt(c, mid, e.kind) && OpPrecAt(c, mid) == lvl
    ensures SpellEnd(c, mid + 1, e.children[1], up) == Some(end)
    ensures pos < mid && mid + 1 < end <= |c.tokens|
  {
    var l, r := e.children[0], e.children[1];
    assert !IsLeafKind(e.kind);
    assert e.children == [l, r];
    mid := SpellEnd(c, pos, l, lvl).value;
    OpLevel(c, mid, e);
  }

  /** The operator token of a binary node is read at the node's level. */
  lemma OpLevel(c: Ctx, n: nat, e: Ast)
    requires e.Node? && IsBinaryKind(e.kind) && OpAt(c, n, e.kind)
    ensures OpPrecAt(c, n) == Prec(e)
  {
    match e.kind
    case Mul =>
    case Add =>
    case Sub =>
    case Lt =>
    case Eq =>
  }

  // The lemmas below go down the levels together with the tree: each
  // `...OfSpelling` lemma sends a node either to the lemma for its own
  // operator or, when it binds tighter, one level up. Termination: the tree
  // shrinks at an operator, otherwise `Rank` does.

  lemma {:induction false} PrimaryOfSpelling(e: Ast, c: Ctx, s: PState, end: nat)
    requires IsExpr(e) && Inv(c, s) && SpellEnd(c, s.pos, e, 4) == Some(end)
    ensures Primary(c, s) == PResult(e, s.(pos := end))
    decreases e, Rank(e, 4), 2
  {
    if Prec(e) < 4 {
      PrimaryOfParens(e, c, s, end);
    }
  }

  /** A parenthesised expression: `parsePrimary` calls `parseExpression`,
      which stops at the `)`. */
  lemma {:induction false} PrimaryOfParens(e: Ast, c: Ctx, s: PState, end: nat)
    requires IsExpr(e) && Inv(c, s) && Prec(e) < 4 && SpellEnd(c, s.pos, e, 4) == Some(end)
    ensures Primary(c, s) == PResult(e, s.(pos := end))
    decreases e, Rank(e, 4), 1
  {
    var k := SpellEnd(c, s.pos + 1, e, 1).value;
    RelOfSpelling(e, c, Advance(s), k);
  }

  lemma {:induction false} MulOfSpelling(e: Ast, c: Ctx, s: PState, end: nat)
    requires IsExpr(e) && Inv(c, s) && SpellEnd(c, s.pos, e, 3) == Some(end)
    ensures MulLevel(c, s) == MulLoop(c, e, s.(pos := end))
    ensures OpPrecAt(c, end) <= 2 ==> MulLevel(c, s) == PResult(e, s.(pos := end))
    decreases e, Rank(e, 3), 2
  {
    if Prec(e) == 3 {
      var mid := Parts(e, c, s.pos, 3, 4, end);
      MulOfProduct(e, c, s, mid, end);
    } else {
      MulOfPrimary(e, c, s, end);
    }
    if OpPrecAt(c, end) <= 2 {
      MulLoopStops(c, e, s.(pos := end));
    }
  }

  /** A leaf or a parenthesised expression at the multiplicative level. */
  lemma {:induction false} MulOfPrimary(e: Ast, c: Ctx, s: PState, end: nat)
    requires IsExpr(e) && Inv(c, s) && Prec(e) != 3 && SpellEnd(c, s.pos, e, 3) == Some(end)
    ensures MulLevel(c, s) == MulLoop(c, e, s.(pos := end))
    decreases e, Rank(e, 3), 1
  {
    LevelUp(e, c, s.pos, 3);
    PrimaryOfSpelling(e, c, s, end);
  }

  /** `l * r` at the multiplicative level: the left operand is read at the
      same level, the right one as a primary. */
  lemma {:induction false} MulOfProduct(e: Ast, c: Ctx, s: PState, mid: nat, end: nat)
    requires IsExpr(e) && Inv(c, s) && e.Node? && e.kind.Mul?
    requires SpellEnd(c, s.pos, e.children[0], 3) == Some(mid) && SpellEnd(c, mid + 1, e.children[1], 4) == Some(end)
    requires OpAt(c, mid, Mul) && s.pos < mid && mid + 1 < end <= |c.tokens|
    ensures MulLevel(c, s) == MulLoop(c, e, s.(pos := end))
    decreases e, Rank(e, 3), 1
  {
    var sr := s.(pos := mid + 1);
    MulOfSpelling(e.children[0], c, s, mid);
    PrimaryOfSpelling(e.children[1], c, sr, end);
    assert sr.(pos := end) == s.(pos := end);
    MulJoin(c, s, e, mid, end);
  }

  lemma {:induction false} AddOfSpelling(e: Ast, c: Ctx, s: PState, end: nat)
    requires IsExpr(e) && Inv(c, s) && SpellEnd(c, s.pos, e, 2) == Some(end) && OpPrecAt(c, end) <= 2
    ensures AddLevel(c, s) == AddLoop(c, e, s.(pos := end))
    ensures OpPrecAt(c, end) <= 1 ==> AddLevel(c, s) == PResult(e, s.(pos := end))
    decreases e, Rank(e, 2), 2
  {
    if Prec(e) == 2 {
      var mid := Parts(e, c, s.pos, 2, 3, end);
      AddOfSum(e, c, s, mid, end);
    } else {
      AddOfMul(e, c, s, end);
    }
    if OpPrecAt(c, end) <= 1 {
      AddLoopStops(c, e, s.(pos := end));
    }
  }

  /** A tighter-binding expression at the additive level: `parseMul` reads
      all of it and stops, since no `*` follows. */
  lemma {:induction false} AddOfMul(e: Ast, c: Ctx, s: PState, end: nat)
    requires IsExpr(e) && Inv(c, s) && Prec(e) != 2 && SpellEnd(c, s.pos, e, 2) == Some(end)
    requires OpPrecAt(c, end) <= 2
    ensures AddLevel(c, s) == AddLoop(c, e, s.(pos := end))
    decreases e, Rank(e, 2), 1
  {
    LevelUp(e, c, s.pos, 2);
    MulOfSpelling(e, c, s, end);
  }

  /** `l + r` or `l - r` at the additive level. */
  lemma {:induction false} AddOfSum(e: Ast, c: Ctx, s: PState, mid: nat, end: nat)
    requires IsExpr(e) && Inv(c, s) && e.Node? && (e.kind.Add? || e.kind.Sub?)
    requires SpellEnd(c, s.pos, e.children[0], 2) == Some(mid) && SpellEnd(c, mid + 1, e.children[1], 3) == Some(end)
    requires OpAt(c, mid, e.kind) && OpPrecAt(c, mid) == 2 && s.pos < mid && mid + 1 < end <= |c.tokens|
    requires OpPrecAt(c, end) <= 2
    ensures AddLevel(c, s) == AddLoop(c, e, s.(pos := end))
    decreases e, Rank(e, 2), 1
  {
    AddOfSpelling(e.children[0], c, s, mid);
    MulOfSpelling(e.children[1], c, s.(pos := mid + 1), end);
    AddJoin(c, s, e, mid, end);
  }

  lemma {:induction false} RelOfSpelling(e: Ast, c: Ctx, s: PState, end: nat)
    requires IsExpr(e) && Inv(c, s) && SpellEnd(c, s.pos, e, 1) == Some(end) && OpPrecAt(c, end) <= 1
    ensures RelLevel(c, s) == RelLoop(c, e, s.(pos := end))
    ensures OpPrecAt(c, end) == 0 ==> RelLevel(c, s) == PResult(e, s.(pos := end))
    decreases e, Rank(e, 1), 2
  {
    if Prec(e) == 1 {
      var mid := Parts(e, c, s.pos, 1, 2, end);
      RelOfComparison(e, c, s, mid, end);
    } else {
      RelOfAdd(e, c, s, end);
    }
    if OpPrecAt(c, end) == 0 {
      RelLoopStops(c, e, s.(pos := end));
    }
  }

  /** A tighter-binding expression at the relational level: `parseAdd`
      reads all of it and stops. */
  lemma {:induction false} RelOfAdd(e: Ast, c: Ctx, s: PState, end: nat)
    requires IsExpr(e) && Inv(c, s) && Prec(e) != 1 && SpellEnd(c, s.pos, e, 1) == Some(end)
    requires OpPrecAt(c, end) <= 1
    ensures RelLevel(c, s) == RelLoop(c, e, s.(pos := end))
    decreases e, Rank(e, 1), 1
  {
    LevelUp(e, c, s.pos, 1);
    AddOfSpelling(e, c, s, end);
  }

  /** `l < r` or `l = r` at the relational level. */
  lemma {:induction false} RelOfComparison(e: Ast, c: Ctx, s: PState, mid: nat, end: nat)
    requires IsExpr(e) && Inv(c, s) && e.Node? && (e.kind.Lt? || e.kind.Eq?)
    requires SpellEnd(c, s.pos, e.children[0], 1) == Some(mid) && SpellEnd(c, mid + 1, e.children[1], 2) == Some(end)
    requires OpAt(c, mid, e.kind) && OpPrecAt(c, mid) == 1 && s.pos < mid && mid + 1 < end <= |c.tokens|
    requires OpPrecAt(c, end) <= 1
    ensures RelLevel(c, s) == RelLoop(c, e, s.(pos := end))
    decreases e, Rank(e, 1), 1
  {
    RelOfSpelling(e.children[0], c, s, mid);
    AddOfSpelling(e.children[1], c, s.(pos := mid + 1), end);
    RelJoin(c, s, e, mid, end);
  }

  /** The operator loops stop at a token of a lower level. */
  lemma MulLoopStops(c: Ctx, left: Ast, s: PState)
    requires Inv(c, s) && WellShaped(left) && OpPrecAt(c, s.pos) <= 2
    ensures MulLoop(c, left, s) == PResult(left, s)
  {
  }

  lemma AddLoopStops(c: Ctx, left: Ast, s: PState)
    requires Inv(c, s) && WellShaped(left) && OpPrecAt(c, s.pos) <= 1
    ensures AddLoop(c, left, s) == PResult(left, s)
  {
  }

  lemma RelLoopStops(c: Ctx, left: Ast, s: PState)
    requires Inv(c, s) && WellShaped(left) && OpPrecAt(c, s.pos) == 0
    ensures RelLoop(c, left, s) == PResult(left, s)
  {
  }

  /** The two operands of a spelled product, read, make the product. */
  lemma MulJoin(c: Ctx, s: PState, e: Ast, mid: nat, end: nat)
    requires Inv(c, s) && IsExpr(e) && e.Node? && e.kind.Mul?
    requires s.pos < mid && mid + 1 < end <= |c.tokens| && OpAt(c, mid, Mul)
    requires MulLevel(c, s) == MulLoop(c, e.children[0], s.(pos := mid))
    requires Primary(c, s.(pos := mid + 1)) == PResult(e.children[1], s.(pos := end))
    ensures MulLevel(c, s) == MulLoop(c, e, s.(pos := end))
  {
    assert e == Binary(Mul, e.children[0], e.children[1]);
    assert Advance(s.(pos := mid)) == s.(pos := mid + 1);
    MulCompose(c, e.children[0], e.children[1], s.(pos := mid), s.(pos := end));
  }

  /** The two operands of a spelled sum or difference, read, make it. */
  lemma AddJoin(c: Ctx, s: PState, e: Ast, mid: nat, end: nat)
    requires Inv(c, s) && IsExpr(e) && e.Node? && (e.kind.Add? || e.kind.Sub?)
    requires s.pos < mid && mid + 1 < end <= |c.tokens| && OpAt(c, mid, e.kind)
    requires AddLevel(c, s) == AddLoop(c, e.children[0], s.(pos := mid))
    requires MulLevel(c, s.(pos := mid + 1)) == PResult(e.children[1], s.(pos := end))
    ensures AddLevel(c, s) == AddLoop(c, e, s.(pos := end))
  {
    assert e == Binary(e.kind, e.children[0], e.children[1]);
    assert Advance(s.(pos := mid)) == s.(pos := mid + 1);
    AddCompose(c, e.children[0], e.children[1], e.kind, s.(pos := mid), s.(pos := end));
  }

  /** The two operands of a spelled comparison, read, make it. */
  lemma RelJoin(c: Ctx, s: PState, e: Ast, mid: nat, end: nat)
    requires Inv(c, s) && IsExpr(e) && e.Node? && (e.kind.Lt? || e.kind.Eq?)
    requires s.pos < mid && mid + 1 < end <= |c.tokens| && OpAt(c, mid, e.kind)
    requires RelLevel(c, s) == RelLoop(c, e.children[0], s.(pos := mid))
    requires AddLevel(c, s.(pos := mid + 1)) == PResult(e.children[1], s.(pos := end))
    ensures RelLevel(c, s) == RelLoop(c, e, s.(pos := end))
  {
    assert e == Binary(e.kind, e.children[0], e.children[1]);
    assert Advance(s.(pos := mid)) == s.(pos := mid + 1);
    RelCompose(c, e.children[0], e.children[1], e.kind, s.(pos := mid), s.(pos := end));
  }

  /** One round of `parseMul`'s loop over a spelled product. */
  lemma MulCompose(c: Ctx, l: Ast, r: Ast, sl: PState, s': PState)
    requires Inv(c, sl) && WellShaped(l) && WellShaped(r)
    requires OpAt(c, sl.pos, Mul)
    requires Primary(c, Advance(sl)) == PResult(r, s')
    ensures MulLoop(c, l, sl) == MulLoop(c, Binary(Mul, l, r), s')
  {
    calc {
      MulLoop(c, l, sl);
      { MulLoopStep(c, l, sl); }
      MulLoop(c, Binary(Mul, l, Primary(c, Advance(sl)).node), Primary(c, Advance(sl)).st);
    }
  }

  /** One round of `parseAdd`'s loop over a spelled sum or difference. */
  lemma AddCompose(c: Ctx, l: Ast, r: Ast, k: Kind, sl: PState, s': PState)
    requires Inv(c, sl) && WellShaped(l) && WellShaped(r) && (k.Add? || k.Sub?)
    requires OpAt(c, sl.pos, k)
    requires MulLevel(c, Advance(sl)) == PResult(r, s')
    ensures AddLoop(c, l, sl) == AddLoop(c, Binary(k, l, r), s')
  {
    assert Matches(c, sl.pos, Operator, '+' as int) || Matches(c, sl.pos, Operator, '-' as int);
    calc {
      AddLoop(c, l, sl);
      { AddLoopStep(c, l, sl); }
      AddLoop(c, Binary(if c.tokens[sl.pos].value == '+' as int then Add else Sub, l, MulLevel(c, Advance(sl)).node),
              MulLevel(c, Advance(sl)).st);
    }
  }

  /** One round of `parseRelational`'s loop over a spelled comparison. */
  lemma RelCompose(c: Ctx, l: Ast, r: Ast, k: Kind, sl: PState, s': PState)
    requires Inv(c, sl) && WellShaped(l) && WellShaped(r) && (k.Lt? || k.Eq?)
    requires OpAt(c, sl.pos, k)
    requires AddLevel(c, Advance(sl)) == PResult(r, s')
    ensures RelLoop(c, l, sl) == RelLoop(c, Binary(k, l, r), s')
  {
    assert Matches(c, sl.pos, Operator, '<' as int) || Matches(c, sl.pos, Operator, '=' as int);
    calc {
      RelLoop(c, l, sl);
      { RelLoopStep(c, l, sl); }
      RelLoop(c, Binary(if c.tokens[sl.pos].value == '<' as int then Lt else Eq, l, AddLevel(c, Advance(sl)).node),
              AddLevel(c, Advance(sl)).st);
    }
  }

  /** The round trip: `parseExpression` reads a spelled tree back, consumes
      exactly its tokens and reports nothing, whatever non-operator token
      follows. */
  lemma ExpressionOfSpelling(e: Ast, c: Ctx, s: PState, end: nat)
    requires IsExpr(e) && Inv(c, s) && SpellEnd(c, s.pos, e, 1) == Some(end) && OpPrecAt(c, end) == 0
    ensures Expression(c, s) == PResult(e, s.(pos := end))
  {
    RelOfSpelling(e, c, s, end);
  }

  /** A constant token at column `col` of line 1. */
  function Num(i: int, col: int): Token { Token(IntegerLiteral, i, 1, col) }

  function Op(ch: char, col: int): Token { Token(Operator, ch as int, 1, col) }

  function Leaf(v: string): Ast { Node(IntLit, v, "", 1, []) }

  /** The tokens of `2 + 3 * 4;`. */
  const SumOfProduct := Ctx([Num(0, 1), Op('+', 3), Num(1, 5), Op('*', 7), Num(2, 9), Token(Delimiter, ';' as int, 1, 10)],
                            [], ["2", "3", "4"])

  /** A leaf is spelled by its one token at any level. */
  lemma LeafSpells(c: Ctx, pos: nat, e: Ast, lvl: nat)
    requires IsExpr(e) && IsLeafKind(e.kind) && 1 <= lvl <= 4 && LeafAt(c, pos, e)
    ensures SpellEnd(c, pos, e, lvl) == Some(pos + 1)
  {
  }

  /** A binary node at its own level is spelled by its left operand, its
      operator and its right operand one level up. */
  lemma BinarySpells(c: Ctx, pos: nat, k: Kind, l: Ast, r: Ast, mid: nat, end: nat)
    requires IsBinaryKind(k) && IsExpr(l) && IsExpr(r)
    requires SpellEnd(c, pos, l, Prec(Binary(k, l, r))) == Some(mid) && OpAt(c, mid, k)
    requires SpellEnd(c, mid + 1, r, Prec(Binary(k, l, r)) + 1) == Some(end)
    ensures IsExpr(Binary(k, l, r)) && SpellEnd(c, pos, Binary(k, l, r), Prec(Binary(k, l, r))) == Some(end)
  {
    assert Binary(k, l, r).children == [l, r];
  }

  /** The tables of `2 + 3 * 4;` are consistent and `;` is no operator. */
  lemma SumOfProductTokens()
    ensures Inv(SumOfProduct, PState(0, [], false)) && OpPrecAt(SumOfProduct, 5) == 0
  {
  }

  /** The tokens of `2 + 3 * 4;` spell `2 + (3 * 4)` and nothing more. */
  lemma SumOfProductSpells()
    ensures SpellEnd(SumOfProduct, 0, Binary(Add, Leaf("2"), Binary(Mul, Leaf("3"), Leaf("4"))), 1) == Some(5)
  {
    var c := SumOfProduct;
    LeafSpells(c, 2, Leaf("3"), 3);
    LeafSpells(c, 4, Leaf("4"), 4);
    BinarySpells(c, 2, Mul, Leaf("3"), Leaf("4"), 3, 5);
    LeafSpells(c, 0, Leaf("2"), 2);
    BinarySpells(c, 0, Add, Leaf("2"), Binary(Mul, Leaf("3"), Leaf("4")), 1, 5);
    LevelUp(Binary(Add, Leaf("2"), Binary(Mul, Leaf("3"), Leaf("4"))), c, 0, 1);
  }

  /** `2 + 3 * 4;` parses as `2 + (3 * 4)`. */
  lemma MulBindsTighter()
    ensures Expression(SumOfProduct, PState(0, [], false))
            == PResult(Binary(Add, Leaf("2"), Binary(Mul, Leaf("3"), Leaf("4"))), PState(5, [], false))
  {
    SumOfProductTokens();
    SumOfProductSpells();
    ExpressionOfSpelling(Binary(Add, Leaf("2"), Binary(Mul, Leaf("3"), Leaf("4"))), SumOfProduct, PState(0, [], false), 5);
  }

  /** The tokens of `1 < 2 = 0;`. */
  const ChainedComparison := Ctx([Num(0, 1), Op('<', 3), Num(1, 5), Op('=', 7), Num(2, 9), Token(Delimiter, ';' as int, 1, 10)],
                                 [], ["1", "2", "0"])

  /** The tokens `1 < 2` spell the first comparison. */
  lemma FirstComparisonSpells()
    ensures SpellEnd(ChainedComparison, 0, Binary(Lt, Leaf("1"), Leaf("2")), 1) == Some(3)
  {
    assert SpellEnd(ChainedComparison, 0, Leaf("1"), 1) == Some(1);
    assert SpellEnd(ChainedComparison, 2, Leaf("2"), 2) == Some(3);
  }

  /** The tables of `1 < 2 = 0;` are consistent and `;` is no operator. */
  lemma ChainedComparisonTokens()
    ensures Inv(ChainedComparison, PState(0, [], false)) && OpPrecAt(ChainedComparison, 5) == 0
  {
  }

  /** The tokens of `1 < 2 = 0;` spell `(1 < 2) = 0` and nothing more. */
  lemma ChainedComparisonSpells()
    ensures SpellEnd(ChainedComparison, 0, Binary(Eq, Binary(Lt, Leaf("1"), Leaf("2")), Leaf("0")), 1) == Some(5)
  {
    FirstComparisonSpells();
    assert SpellEnd(ChainedComparison, 4, Leaf("0"), 2) == Some(5);
  }

  /** `1 < 2 = 0;` parses as `(1 < 2) = 0`: comparisons associate to the left. */
  lemma ComparisonsAssociateLeft()
    ensures Expression(ChainedComparison, PState(0, [], false))
            == PResult(Binary(Eq, Binary(Lt, Leaf("1"), Leaf("2")), Leaf("0")), PState(5, [], false))
  {
    ChainedComparisonTokens();
    ChainedComparisonSpells();
    ExpressionOfSpelling(Binary(Eq, Binary(Lt, Leaf("1"), Leaf("2")), Leaf("0")), ChainedComparison, PState(0, [], false), 5);
  }
}
