/** What the statement grammar of src/parser.cpp does with input it does
    not expect: a block without its `}` never ends, a stray token stops
    the block loop where it is, an assignment may drop its `;` without a
    word while a declaration may not, and the class header is checked by
    token type only. */
module ParserFacts {
  import opened Tokens
  import opened Syntax
  import opened ParserSpec

  /** No `}` at or after `pos`. */
  predicate NoCloseFrom(c: Ctx, pos: nat) {
    forall k | pos <= k < |c.tokens| :: !(c.tokens[k].tokenType == Delimiter && c.tokens[k].value == '}' as int)
  }

  /** Without a `}` ahead, the block loop of `parseStatement` never leaves:
      either a statement consumes nothing or the tokens run out, and from
      then on the source repeats the same iteration forever, after an
      `UnparseableStatement` error has been recorded. */
  lemma {:induction false} BlockHangsWithoutClose(c: Ctx, kids: seq<Ast>, s: PState)
    requires Inv(c, s) && (forall i | 0 <= i < |kids| :: WellShaped(kids[i]))
    requires NoCloseFrom(c, s.pos)
    ensures BlockLoop(c, kids, s).st.hung
    ensures !s.hung ==> |BlockLoop(c, kids, s).st.errors| > |s.errors|
    decreases Rem(c, s)
  {
    if !s.hung {
      BlockHangReported(c, kids, s);
    }
    assert !Matches(c, s.pos, Delimiter, '}' as int);
    var stmt := Statement(c, s);
    var kids' := if stmt.node.Null? then kids else kids + [stmt.node];
    if !(stmt.st.hung || stmt.st.pos == s.pos) {
      BlockHangsWithoutClose(c, kids', stmt.st);
    }
  }

  // The parser never starts spinning silently: a statement that consumes
  // nothing records `UnparseableStatement` (src/parser.cpp, the last branch
  // of `parseStatement`), so a parse that becomes hung has added an error.

  /** A statement that consumes nothing or leaves the parser hung has
      recorded an error. */
  lemma {:induction false} StatementHangReported(c: Ctx, s: PState)
    requires Inv(c, s) && !s.hung
    ensures var r := Statement(c, s);
            (r.st.hung || r.st.pos == s.pos) ==> |r.st.errors| > |s.errors|
    decreases Rem(c, s), 0
  {
    if Matches(c, s.pos, Delimiter, '{' as int) {
      BlockHangReported(c, [], Advance(s));
    } else if Matches(c, s.pos, Keyword, KwInt) || Matches(c, s.pos, Keyword, KwString) {
    } else if Matches(c, s.pos, Keyword, AnyValue) {
      if c.tokens[s.pos].value == KwIf {
        IfHangReported(c, Advance(s));
      } else if c.tokens[s.pos].value == KwWhile {
        WhileHangReported(c, Advance(s));
      }
    }
  }

  lemma {:induction false} IfHangReported(c: Ctx, s: PState)
    requires Inv(c, s) && !s.hung
    ensures IfRest(c, s).st.hung ==> |IfRest(c, s).st.errors| > |s.errors|
    decreases Rem(c, s), 1
  {
    var cond := Expression(c, Skip(c, s, Delimiter, '(' as int));
    var s1 := Skip(c, cond.st, Delimiter, ')' as int);
    var thenBranch := Statement(c, s1);
    StatementHangReported(c, s1);
    if !thenBranch.st.hung {
      StatementHangReported(c, ElseKeyword(c, thenBranch.st));
    }
  }

  lemma {:induction false} WhileHangReported(c: Ctx, s: PState)
    requires Inv(c, s) && !s.hung
    ensures WhileRest(c, s).st.hung ==> |WhileRest(c, s).st.errors| > |s.errors|
    decreases Rem(c, s), 1
  {
    var cond := Expression(c, Skip(c, s, Delimiter, '(' as int));
    StatementHangReported(c, Skip(c, cond.st, Delimiter, ')' as int));
  }

  /** A block loop entered running that ends hung has recorded an error. */
  lemma {:induction false} BlockHangReported(c: Ctx, kids: seq<Ast>, s: PState)
    requires Inv(c, s) && !s.hung && (forall i | 0 <= i < |kids| :: WellShaped(kids[i]))
    ensures BlockLoop(c, kids, s).st.hung ==> |BlockLoop(c, kids, s).st.errors| > |s.errors|
    decreases Rem(c, s), 1
  {
    if !Matches(c, s.pos, Delimiter, '}' as int) {
      var stmt := Statement(c, s);
      var kids' := if stmt.node.Null? then kids else kids + [stmt.node];
      StatementHangReported(c, s);
      if !(stmt.st.hung || stmt.st.pos == s.pos) {
        BlockHangReported(c, kids', stmt.st);
      }
    }
  }

  /** A token that starts no statement (an operator, a literal, a
      delimiter other than `{`): `parseStatement` reports it and consumes
      nothing. */
  predicate StartsNoStatement(c: Ctx, pos: nat) {
    pos < |c.tokens| &&
    !Matches(c, pos, Delimiter, '{' as int) &&
    !Matches(c, pos, Keyword, AnyValue) &&
    !Matches(c, pos, Identifier, AnyValue)
  }

  lemma UnparseableStatementStays(c: Ctx, s: PState)
    requires Inv(c, s) && StartsNoStatement(c, s.pos)
    ensures var r := Statement(c, s);
            r.node == Null && r.st.pos == s.pos && r.st.hung == s.hung &&
            r.st.errors == s.errors + [ParseError(UnparseableStatement, TokenPos(c, s.pos).0, TokenPos(c, s.pos).1)]
  {
  }

  /** So a stray token other than `}` inside a block is reported once and
      the block loop stops there: the source spins on that token. */
  lemma StrayTokenHangsBlock(c: Ctx, kids: seq<Ast>, s: PState)
    requires Inv(c, s) && (forall i | 0 <= i < |kids| :: WellShaped(kids[i]))
    requires StartsNoStatement(c, s.pos) && !Matches(c, s.pos, Delimiter, '}' as int)
    ensures var r := BlockLoop(c, kids, s);
            r.st.hung && r.st.pos == s.pos && r.node == Node(Block, "", "", 0, kids) &&
            r.st.errors == s.errors + [ParseError(UnparseableStatement, TokenPos(c, s.pos).0, TokenPos(c, s.pos).1)]
  {
    UnparseableStatementStays(c, s);
  }

  /** `parsePrimary`: a literal or identifier token becomes a leaf holding
      its table text and line; `( e )` yields `e` itself, with an error
      only when the `)` is missing; any other token is reported and the
      cursor stays where it was. */
  lemma PrimaryCases(c: Ctx, s: PState)
    requires Inv(c, s)
    ensures var r := Primary(c, s);
            var tk := Peek(c, s.pos);
            (Matches(c, s.pos, IntegerLiteral, AnyValue) ==>
               r == PResult(Node(IntLit, c.consts[tk.value], "", tk.line, []), Advance(s))) &&
            (Matches(c, s.pos, Identifier, AnyValue) ==>
               r == PResult(Node(Var, c.ids[tk.value], "", tk.line, []), Advance(s))) &&
            (Matches(c, s.pos, StringLiteral, AnyValue) ==>
               r == PResult(Node(Str, c.consts[tk.value], "", tk.line, []), Advance(s)))
  {
  }

  lemma ParenthesisedPrimary(c: Ctx, s: PState)
    requires Inv(c, s) && Matches(c, s.pos, Delimiter, '(' as int)
    ensures var r := Primary(c, s);
            var e := Expression(c, Advance(s));
            r.node == e.node &&
            (Matches(c, e.st.pos, Delimiter, ')' as int) ==> r.st == Advance(e.st)) &&
            (!Matches(c, e.st.pos, Delimiter, ')' as int) ==> r.st == Fail(c, e.st, MissingRParen))
  {
  }

  /** A token that starts no primary, including the end of the stream. */
  predicate StartsNoPrimary(c: Ctx, pos: nat) {
    !Matches(c, pos, IntegerLiteral, AnyValue) && !Matches(c, pos, Identifier, AnyValue) &&
    !Matches(c, pos, StringLiteral, AnyValue) && !Matches(c, pos, Delimiter, '(' as int)
  }

  lemma UnrecognizedPrimary(c: Ctx, s: PState)
    requires Inv(c, s) && StartsNoPrimary(c, s.pos)
    ensures var r := Primary(c, s);
            r.node == Null && r.st.pos == s.pos && r.st == Fail(c, s, UnrecognizedExpression)
  {
  }

  /** `int` or `String` not followed by an identifier: the type keyword is
      consumed, the error is reported at the next token, and the result is null. */
  lemma DeclarationWithoutName(c: Ctx, s: PState, kw: int)
    requires Inv(c, s) && IsTypeKeyword(kw) && Matches(c, s.pos, Keyword, kw)
    requires !Matches(c, s.pos + 1, Identifier, AnyValue)
    ensures var r := Statement(c, s);
            r.node == Null && r.st.pos == s.pos + 1 &&
            r.st.errors == s.errors + [ParseError(MissingDeclIdentifier, TokenPos(c, s.pos + 1).0, TokenPos(c, s.pos + 1).1)]
  {
    assert Statement(c, s) == DeclRest(c, Advance(s), TypeName(kw));
  }

  /** `x = e` with or without the closing `;`: the same Assign node, no
      error of its own, and the `;` consumed exactly when it is there. */
  lemma AssignmentSemicolonIsSilent(c: Ctx, s: PState)
    requires Inv(c, s) && Matches(c, s.pos, Identifier, AnyValue) && Matches(c, s.pos + 1, Operator, '=' as int)
    ensures var name := c.tokens[s.pos];
            var rhs := Expression(c, s.(pos := s.pos + 2));
            var r := Statement(c, s);
            r.node == Node(Assign, c.ids[name.value], "", name.line, [rhs.node]) &&
            r.st.errors == rhs.st.errors &&
            (r.st.pos == rhs.st.pos + 1 <==> Matches(c, rhs.st.pos, Delimiter, ';' as int)) &&
            (r.st.pos == rhs.st.pos <==> !Matches(c, rhs.st.pos, Delimiter, ';' as int))
  {
    assert Statement(c, s) == AssignRest(c, c.tokens[s.pos], Advance(s));
    assert Advance(Advance(s)) == s.(pos := s.pos + 2);
  }

  /** `x = ...` without the `=`: the identifier is consumed and the
      statement is reported as unparseable. */
  lemma AssignmentWithoutEquals(c: Ctx, s: PState)
    requires Inv(c, s) && Matches(c, s.pos, Identifier, AnyValue) && !Matches(c, s.pos + 1, Operator, '=' as int)
    ensures var r := Statement(c, s);
            r.node == Null && r.st.pos == s.pos + 1 &&
            r.st.errors == s.errors + [ParseError(UnparseableStatement, TokenPos(c, s.pos + 1).0, TokenPos(c, s.pos + 1).1)]
  {
  }

  /** The declared type keyword `int` or `String`, and its spelling. */
  predicate IsTypeKeyword(kw: int) { kw == KwInt || kw == KwString }

  function TypeName(kw: int): string
    requires IsTypeKeyword(kw)
  {
    if kw == KwInt then "int" else "String"
  }

  /** `int x;` / `String x;` without an initialiser: a VarDecl without
      children, and a missing `;` is reported (unlike an assignment's). */
  lemma DeclarationSemicolonIsReported(c: Ctx, s: PState, kw: int)
    requires Inv(c, s) && IsTypeKeyword(kw) && Matches(c, s.pos, Keyword, kw)
    requires Matches(c, s.pos + 1, Identifier, AnyValue) && !Matches(c, s.pos + 2, Operator, '=' as int)
    ensures var name := c.tokens[s.pos + 1];
            var r := Statement(c, s);
            r.node == Node(VarDecl, c.ids[name.value], TypeName(kw), name.line, []) &&
            (Matches(c, s.pos + 2, Delimiter, ';' as int) ==> r.st.errors == s.errors && r.st.pos == s.pos + 3) &&
            (!Matches(c, s.pos + 2, Delimiter, ';' as int) ==>
               r.st.pos == s.pos + 2 &&
               r.st.errors == s.errors + [ParseError(MissingDeclSemicolon, TokenPos(c, s.pos + 2).0, TokenPos(c, s.pos + 2).1)])
  {
    assert Advance(Advance(s)) == s.(pos := s.pos + 2);
  }

  /** An `if` node always has three children (condition, then, else), even
      when the `else` is missing; a `while` node has two. */
  lemma ControlNodeShapes(c: Ctx, s: PState)
    requires Inv(c, s) && (Matches(c, s.pos, Keyword, KwIf) || Matches(c, s.pos, Keyword, KwWhile))
    ensures var r := Statement(c, s);
            var cond := Expression(c, Skip(c, Advance(s), Delimiter, '(' as int));
            (Matches(c, s.pos, Keyword, KwIf) ==> r.node.Node? && r.node.kind.If? && |r.node.children| == 3) &&
            (Matches(c, s.pos, Keyword, KwWhile) ==> r.node.Node? && r.node.kind.While? && |r.node.children| == 2) &&
            r.node.Node? && |r.node.children| > 0 && r.node.children[0] == cond.node
  {
  }

  /** The token types the header `class Name { public static void main (`
      must have; keyword values are never looked at. */
  predicate HeaderShape(c: Ctx, pos: nat) {
    pos + 8 <= |c.tokens| &&
    Matches(c, pos, Keyword, AnyValue) &&
    Matches(c, pos + 1, Identifier, AnyValue) &&
    Matches(c, pos + 2, Delimiter, '{' as int) &&
    Matches(c, pos + 3, Keyword, AnyValue) &&
    Matches(c, pos + 4, Keyword, AnyValue) &&
    Matches(c, pos + 5, Keyword, AnyValue) &&
    Matches(c, pos + 6, Keyword, AnyValue) &&
    Matches(c, pos + 7, Delimiter, '(' as int)
  }

  /** Any tokens of the right types pass the header without an error (so
      `while x { if if if if (` is as good as the real header), and the
      optional `String [ ] args )` part never causes one. */
  lemma {:induction false} HeaderChecksTypesOnly(c: Ctx, s: PState)
    requires Inv(c, s) && HeaderShape(c, s.pos)
    ensures var r := MainHeader(c, s);
            r.errors == s.errors && s.pos + 8 <= r.pos <= s.pos + 13
  {
    var s3 := s.(pos := s.pos + 3);
    assert Expect(c, Expect(c, Expect(c, s, Keyword, AnyValue, MissingClass), Identifier, AnyValue, MissingClassName),
                  Delimiter, '{' as int, MissingClassLBrace) == s3;
    assert ExpectKeywords(c, s3, 1) == s.(pos := s.pos + 4);
    assert ExpectKeywords(c, s3, 2) == s.(pos := s.pos + 5);
    assert ExpectKeywords(c, s3, 3) == s.(pos := s.pos + 6);
    assert ExpectKeywords(c, s3, 4) == s.(pos := s.pos + 7);
  }
}
