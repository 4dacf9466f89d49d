/** The grammar of src/parser.cpp as functions over an explicit parser
    state. Each function is one parse routine (or the remainder of one of
    its `while` loops); the class in parser.dfy is proved to compute them. */
module ParserSpec {
  import opened Tokens
  import opened Syntax

  /** The message of each `error(...)` call, as a tag. */
  datatype SyntaxError =
    | MissingRParen            // parsePrimary: ")" missing after an expression
    | UnrecognizedExpression   // parsePrimary: no primary expression here
    | MissingDeclIdentifier    // declaration without an identifier
    | MissingDeclSemicolon     // declaration without ";"
    | MissingElse              // if-statement without "else"
    | UnparseableStatement     // no statement alternative applies
    | MissingClass             // parseMainClass header errors ...
    | MissingClassName
    | MissingClassLBrace
    | MissingMainHeader
    | MissingLParen
    | MissingClassRBrace

  /** `ParseError`; line and column are -1 when unknown. */
  datatype ParseError = ParseError(message: SyntaxError, line: int, column: int)

  /** What the parser reads but never writes: the token vector and the two
      tables of the lexer that identifier and literal tokens index. */
  datatype Ctx = Ctx(tokens: seq<Token>, ids: seq<string>, consts: seq<string>)

  predicate CtxOk(c: Ctx) {
    AllIndexTables(c.tokens, c.ids, c.consts)
  }

  /** `match`'s default argument: compare the token type only. */
  const AnyValue: int := -2

  /** What the parser writes: the cursor `current`, the error list, and
      `hung`, which records that the source would be looping forever (an
      iteration of the block loop that consumed nothing). */
  datatype PState = PState(pos: nat, errors: seq<ParseError>, hung: bool)

  datatype PResult = PResult(node: Ast, st: PState)

  predicate Inv(c: Ctx, s: PState) {
    CtxOk(c) && s.pos <= |c.tokens|
  }

  function Rem(c: Ctx, s: PState): nat
    requires s.pos <= |c.tokens|
  {
    |c.tokens| - s.pos
  }

  /** A parse routine only moves the cursor forward, only appends errors,
      and never clears `hung`. */
  predicate Follows(c: Ctx, s: PState, s': PState) {
    s.pos <= s'.pos <= |c.tokens| && s.errors <= s'.errors && (s.hung ==> s'.hung)
  }

  /** `peek`: past the end it returns an END_OF_FILE sentinel. */
  function Peek(c: Ctx, pos: nat): Token {
    if pos < |c.tokens| then c.tokens[pos] else Token(EndOfFile, -1, -1, -1)
  }

  /** `getTokenPos`: the current token's line and column, or (-1, -1). */
  function TokenPos(c: Ctx, pos: nat): (int, int) {
    if pos < |c.tokens| && c.tokens[pos].line > 0 then (c.tokens[pos].line, c.tokens[pos].column)
    else (-1, -1)
  }

  /** `error(msg)`: records the message at the current token's position. */
  function Fail(c: Ctx, s: PState, msg: SyntaxError): PState {
    var at := TokenPos(c, s.pos);
    s.(errors := s.errors + [ParseError(msg, at.0, at.1)])
  }

  /** The test `match(type, val)` makes before it advances. */
  predicate Matches(c: Ctx, pos: nat, t: TokenType, v: int) {
    pos < |c.tokens| && c.tokens[pos].tokenType == t && (v == AnyValue || v == c.tokens[pos].value)
  }

  function Advance(s: PState): PState {
    s.(pos := s.pos + 1)
  }

  /** `match(type, val)` whose result is ignored. */
  function Skip(c: Ctx, s: PState, t: TokenType, v: int): (r: PState)
    requires s.pos <= |c.tokens|
    ensures Follows(c, s, r) && r.errors == s.errors && r.hung == s.hung
  {
    if Matches(c, s.pos, t, v) then Advance(s) else s
  }

  /** `if (!match(type, val)) error(msg);` */
  function Expect(c: Ctx, s: PState, t: TokenType, v: int, msg: SyntaxError): (r: PState)
    requires s.pos <= |c.tokens|
    ensures Follows(c, s, r) && r.hung == s.hung
  {
    if Matches(c, s.pos, t, v) then Advance(s) else Fail(c, s, msg)
  }

  // ---------------------------------------------------------------------
  // Expressions. The second component of each `decreases` orders the
  // routines that call one another without consuming a token.
  // ---------------------------------------------------------------------

  /** `parsePrimary`. */
  function Primary(c: Ctx, s: PState): (r: PResult)
    requires Inv(c, s)
    ensures Follows(c, s, r.st) && r.st.hung == s.hung && WellShaped(r.node)
    decreases Rem(c, s), 0
  {
    var tk := Peek(c, s.pos);
    if tk.tokenType == IntegerLiteral then
      PResult(MakeNode(IntLit, c.consts[tk.value], tk.line), Advance(s))
    else if tk.tokenType == Identifier then
      PResult(MakeNode(Var, c.ids[tk.value], tk.line), Advance(s))
    else if tk.tokenType == StringLiteral then
      PResult(MakeNode(Str, c.consts[tk.value], tk.line), Advance(s))
    else if tk.tokenType == Delimiter && tk.value == '(' as int then
      var e := Expression(c, Advance(s));
      PResult(e.node, Expect(c, e.st, Delimiter, ')' as int, MissingRParen))
    else
      PResult(Null, Fail(c, s, UnrecognizedExpression))
  }

  /** `parseMul`: a primary, then the `while` loop over '*'. */
  function MulLevel(c: Ctx, s: PState): (r: PResult)
    requires Inv(c, s)
    ensures Follows(c, s, r.st) && r.st.hung == s.hung && WellShaped(r.node)
    decreases Rem(c, s), 2
  {
    var first := Primary(c, s);
    MulLoop(c, first.node, first.st)
  }

  /** The `while` loop of `parseMul` with `left` built so far. */
  function MulLoop(c: Ctx, left: Ast, s: PState): (r: PResult)
    requires Inv(c, s) && WellShaped(left)
    ensures Follows(c, s, r.st) && r.st.hung == s.hung && WellShaped(r.node)
    decreases Rem(c, s), 1
  {
    if Matches(c, s.pos, Operator, '*' as int) then
      var right := Primary(c, Advance(s));
      MulLoop(c, Binary(Mul, left, right.node), right.st)
    else PResult(left, s)
  }

  lemma MulLoopStep(c: Ctx, left: Ast, s: PState)
    requires Inv(c, s) && WellShaped(left) && Matches(c, s.pos, Operator, '*' as int)
    ensures var right := Primary(c, Advance(s));
            MulLoop(c, left, s) == MulLoop(c, Binary(Mul, left, right.node), right.st)
  {
  }

  /** `parseAdd`. */
  function AddLevel(c: Ctx, s: PState): (r: PResult)
    requires Inv(c, s)
    ensures Follows(c, s, r.st) && r.st.hung == s.hung && WellShaped(r.node)
    decreases Rem(c, s), 4
  {
    var first := MulLevel(c, s);
    AddLoop(c, first.node, first.st)
  }

  function AddLoop(c: Ctx, left: Ast, s: PState): (r: PResult)
    requires Inv(c, s) && WellShaped(left)
    ensures Follows(c, s, r.st) && r.st.hung == s.hung && WellShaped(r.node)
    decreases Rem(c, s), 3
  {
    if Matches(c, s.pos, Operator, '+' as int) || Matches(c, s.pos, Operator, '-' as int) then
      var op := c.tokens[s.pos].value;
      var right := MulLevel(c, Advance(s));
      AddLoop(c, Binary(if op == '+' as int then Add else Sub, left, right.node), right.st)
    else PResult(left, s)
  }

  lemma AddLoopStep(c: Ctx, left: Ast, s: PState)
    requires Inv(c, s) && WellShaped(left)
    requires Matches(c, s.pos, Operator, '+' as int) || Matches(c, s.pos, Operator, '-' as int)
    ensures var op := c.tokens[s.pos].value;
            var right := MulLevel(c, Advance(s));
            AddLoop(c, left, s) == AddLoop(c, Binary(if op == '+' as int then Add else Sub, left, right.node), right.st)
  {
  }

  /** `parseRelational`: '<' and '=' share one level. */
  function RelLevel(c: Ctx, s: PState): (r: PResult)
    requires Inv(c, s)
    ensures Follows(c, s, r.st) && r.st.hung == s.hung && WellShaped(r.node)
    decreases Rem(c, s), 6
  {
    var first := AddLevel(c, s);
    RelLoop(c, first.node, first.st)
  }

  function RelLoop(c: Ctx, left: Ast, s: PState): (r: PResult)
    requires Inv(c, s) && WellShaped(left)
    ensures Follows(c, s, r.st) && r.st.hung == s.hung && WellShaped(r.node)
    decreases Rem(c, s), 5
  {
    if Matches(c, s.pos, Operator, '<' as int) || Matches(c, s.pos, Operator, '=' as int) then
      var op := c.tokens[s.pos].value;
      var right := AddLevel(c, Advance(s));
      RelLoop(c, Binary(if op == '<' as int then Lt else Eq, left, right.node), right.st)
    else PResult(left, s)
  }

  lemma RelLoopStep(c: Ctx, left: Ast, s: PState)
    requires Inv(c, s) && WellShaped(left)
    requires Matches(c, s.pos, Operator, '<' as int) || Matches(c, s.pos, Operator, '=' as int)
    ensures var op := c.tokens[s.pos].value;
            var right := AddLevel(c, Advance(s));
            RelLoop(c, left, s) == RelLoop(c, Binary(if op == '<' as int then Lt else Eq, left, right.node), right.st)
  {
  }

  /** `parseExpression`. */
  function Expression(c: Ctx, s: PState): (r: PResult)
    requires Inv(c, s)
    ensures Follows(c, s, r.st) && r.st.hung == s.hung && WellShaped(r.node)
    decreases Rem(c, s), 7
  {
    RelLevel(c, s)
  }

  // ---------------------------------------------------------------------
  // Statements
  // ---------------------------------------------------------------------

  /** The shared tail of the `int` and `String` declarations, entered just
      after the type keyword. */
  function DeclRest(c: Ctx, s: PState, varType: string): (r: PResult)
    requires Inv(c, s)
    ensures Follows(c, s, r.st) && r.st.hung == s.hung && WellShaped(r.node)
  {
    if !Matches(c, s.pos, Identifier, AnyValue) then
      PResult(Null, Fail(c, s, MissingDeclIdentifier))
    else
      var name := c.tokens[s.pos];
      var s1 := Advance(s);
      var init := if Matches(c, s1.pos, Operator, '=' as int) then Expression(c, Advance(s1)) else PResult(Null, s1);
      var kids := if Matches(c, s1.pos, Operator, '=' as int) then [init.node] else [];
      var decl := Node(VarDecl, c.ids[name.value], varType, name.line, kids);
      PResult(decl, Expect(c, init.st, Delimiter, ';' as int, MissingDeclSemicolon))
  }

  /** `parseStatement`: dispatches on the current token. */
  function Statement(c: Ctx, s: PState): (r: PResult)
    requires Inv(c, s)
    ensures Follows(c, s, r.st) && WellShaped(r.node)
    decreases Rem(c, s), 0
  {
    if Matches(c, s.pos, Delimiter, '{' as int) then
      BlockLoop(c, [], Advance(s))
    else if Matches(c, s.pos, Keyword, KwInt) then
      DeclRest(c, Advance(s), "int")
    else if Matches(c, s.pos, Keyword, KwString) then
      DeclRest(c, Advance(s), "String")
    else if Matches(c, s.pos, Keyword, AnyValue) then
      if c.tokens[s.pos].value == KwIf then IfRest(c, Advance(s))
      else if c.tokens[s.pos].value == KwWhile then WhileRest(c, Advance(s))
      else PResult(Null, Fail(c, Advance(s), UnparseableStatement))
    else if Matches(c, s.pos, Identifier, AnyValue) then
      AssignRest(c, c.tokens[s.pos], Advance(s))
    else
      PResult(Null, Fail(c, s, UnparseableStatement))
  }

  /** The `if` branch after the keyword: the parentheses are skipped
      silently, a missing `else` is reported and the else-statement is
      parsed regardless. */
  function IfRest(c: Ctx, s: PState): (r: PResult)
    requires Inv(c, s)
    ensures Follows(c, s, r.st) && WellShaped(r.node)
    decreases Rem(c, s), 1
  {
    var cond := Expression(c, Skip(c, s, Delimiter, '(' as int));
    var thenBranch := Statement(c, Skip(c, cond.st, Delimiter, ')' as int));
    var elseBranch := Statement(c, ElseKeyword(c, thenBranch.st));
    PResult(Node(If, "", "", 0, [cond.node, thenBranch.node, elseBranch.node]), elseBranch.st)
  }

  /** `if (!match(KEYWORD) || tokens[current - 1].value != KW_ELSE) error(...)`:
      any keyword is consumed, and the error is reported after it when it
      is not `else`. */
  function ElseKeyword(c: Ctx, s: PState): (r: PState)
    requires s.pos <= |c.tokens|
    ensures Follows(c, s, r) && r.hung == s.hung
  {
    if !Matches(c, s.pos, Keyword, AnyValue) then Fail(c, s, MissingElse)
    else if c.tokens[s.pos].value != KwElse then Fail(c, Advance(s), MissingElse)
    else Advance(s)
  }

  /** The `while` branch after the keyword. */
  function WhileRest(c: Ctx, s: PState): (r: PResult)
    requires Inv(c, s)
    ensures Follows(c, s, r.st) && WellShaped(r.node)
    decreases Rem(c, s), 1
  {
    var cond := Expression(c, Skip(c, s, Delimiter, '(' as int));
    var body := Statement(c, Skip(c, cond.st, Delimiter, ')' as int));
    PResult(Node(While, "", "", 0, [cond.node, body.node]), body.st)
  }

  /** The assignment branch after the identifier `name`: without `=` the
      statement is unparseable; the closing `;` is skipped silently. */
  function AssignRest(c: Ctx, name: Token, s: PState): (r: PResult)
    requires Inv(c, s) && name.tokenType == Identifier && IndexesTables(name, c.ids, c.consts)
    ensures Follows(c, s, r.st) && r.st.hung == s.hung && WellShaped(r.node)
  {
    if Matches(c, s.pos, Operator, '=' as int) then
      var rhs := Expression(c, Advance(s));
      PResult(Node(Assign, c.ids[name.value], "", name.line, [rhs.node]), Skip(c, rhs.st, Delimiter, ';' as int))
    else
      PResult(Null, Fail(c, s, UnparseableStatement))
  }

  /** The block loop `while (!match('}'))` with the statements `kids`
      collected so far (null results are dropped). An iteration that
      consumes no token leaves the cursor where it was, so the source
      repeats it forever: the model stops there and sets `hung`. */
  function BlockLoop(c: Ctx, kids: seq<Ast>, s: PState): (r: PResult)
    requires Inv(c, s) && forall i | 0 <= i < |kids| :: WellShaped(kids[i])
    ensures Follows(c, s, r.st) && WellShaped(r.node)
    ensures r.node.Node? && r.node.kind.Block?
    decreases Rem(c, s), 1
  {
    if Matches(c, s.pos, Delimiter, '}' as int) then
      PResult(Node(Block, "", "", 0, kids), Advance(s))
    else
      var stmt := Statement(c, s);
      var kids' := if stmt.node.Null? then kids else kids + [stmt.node];
      if stmt.st.hung || stmt.st.pos == s.pos then
        PResult(Node(Block, "", "", 0, kids'), stmt.st.(hung := true))
      else
        BlockLoop(c, kids', stmt.st)
  }

  /** The first `n` rounds of the `for` loop of `parseMainClass`, each expecting a keyword. */
  function ExpectKeywords(c: Ctx, s: PState, n: nat): (r: PState)
    requires s.pos <= |c.tokens|
    ensures Follows(c, s, r) && r.hung == s.hung
    decreases n
  {
    if n == 0 then s
    else Expect(c, ExpectKeywords(c, s, n - 1), Keyword, AnyValue, MissingMainHeader)
  }

  /** The fixed header up to and including the `)` after `main`'s parameter. */
  function MainHeader(c: Ctx, s: PState): (r: PState)
    requires s.pos <= |c.tokens|
    ensures Follows(c, s, r) && r.hung == s.hung
  {
    var s1 := Expect(c, s, Keyword, AnyValue, MissingClass);
    var s2 := Expect(c, s1, Identifier, AnyValue, MissingClassName);
    var s3 := Expect(c, s2, Delimiter, '{' as int, MissingClassLBrace);
    var s4 := ExpectKeywords(c, s3, 4);
    var s5 := Expect(c, s4, Delimiter, '(' as int, MissingLParen);
    var s6 := Skip(c, s5, Keyword, AnyValue);
    var s7 := Skip(c, s6, Delimiter, '[' as int);
    var s8 := Skip(c, s7, Delimiter, ']' as int);
    var s9 := Skip(c, s8, Identifier, AnyValue);
    Skip(c, s9, Delimiter, ')' as int)
  }

  /** `parseMainClass`. */
  function MainClass(c: Ctx, s: PState): (r: PResult)
    requires Inv(c, s)
    ensures Follows(c, s, r.st) && WellShaped(r.node)
  {
    var body := Statement(c, MainHeader(c, s));
    var s' := Expect(c, body.st, Delimiter, '}' as int, MissingClassRBrace);
    PResult(Node(Program, "", "", 0, [body.node]), s')
  }

  /** `parse`: the cursor and the error list start afresh. */
  function Parse(c: Ctx): (r: PResult)
    requires CtxOk(c)
    ensures WellShaped(r.node) && r.node.Node? && r.node.kind.Program? && |r.node.children| == 1
  {
    MainClass(c, PState(0, [], false))
  }
}
