/** The recursive-descent parser of src/parser.cpp: a global token cursor
    and error list updated by mutually recursive parse routines. Every
    method is proved to compute the matching function of ParserSpec. */
module Parser {
  import opened Tokens
  import opened Syntax
  import opened ParserSpec

  class Parser {
    /** The token vector and the lexer's tables, which the source reads as
        globals and never changes while parsing. */
    const tokens: seq<Token>
    const identifierTable: seq<string>
    const constantTable: seq<string>
    /** The file-static cursor and the global error list. */
    var current: nat
    var parseErrors: seq<ParseError>
    /** Set when the source would be stuck in the block loop for ever. */
    var hung: bool

    /** The first half of `parse`: installs the tokens and resets the
        cursor and the error list. */
    constructor (tks: seq<Token>, ids: seq<string>, consts: seq<string>)
      ensures Context() == Ctx(tks, ids, consts)
      ensures current == 0 && parseErrors == [] && !hung
    {
      tokens, identifierTable, constantTable := tks, ids, consts;
      current, parseErrors, hung := 0, [], false;
    }

    function Context(): Ctx {
      Ctx(tokens, identifierTable, constantTable)
    }

    function State(): PState
      reads this`current, this`parseErrors, this`hung
    {
      PState(current, parseErrors, hung)
    }

    predicate Valid()
      reads this`current
    {
      CtxOk(Context()) && current <= |tokens|
    }

    /** `getTokenPos`: the current token's position, or (-1, -1) past the
        end of the stream or for a token without a line. */
    method GetTokenPos() returns (line: int, column: int)
      ensures current < |tokens| && tokens[current].line > 0 ==>
                line == tokens[current].line && column == tokens[current].column
      ensures !(current < |tokens| && tokens[current].line > 0) ==> line == -1 && column == -1
    {
      if current < |tokens| && tokens[current].line > 0 {
        line, column := tokens[current].line, tokens[current].column;
      } else {
        line, column := -1, -1;
      }
    }

    /** `error`: appends the message at the current position. */
    method Error(msg: SyntaxError)
      requires Valid()
      modifies this`parseErrors
      ensures Valid()
      ensures State() == Fail(Context(), old(State()), msg)
    {
      var line, column := GetTokenPos();
      parseErrors := parseErrors + [ParseError(msg, line, column)];
    }

    /** `peek`: the current token, or the END_OF_FILE sentinel past the end. */
    function Peek(): (t: Token)
      reads this
      ensures current < |tokens| ==> t == tokens[current]
      ensures current >= |tokens| ==> t == Token(EndOfFile, -1, -1, -1)
    {
      if current < |tokens| then tokens[current] else Token(EndOfFile, -1, -1, -1)
    }

    /** `match`: advances by exactly one token iff the current token has
        type `t` and, unless `v` is -2, value `v`; fails past the end. */
    method Match(t: TokenType, v: int) returns (matched: bool)
      requires Valid()
      modifies this`current
      ensures Valid()
      ensures matched == Matches(Context(), old(current), t, v)
      ensures current == if matched then old(current) + 1 else old(current)
      ensures State() == Skip(Context(), old(State()), t, v)
    {
      if current >= |tokens| {
        return false;
      }
      var tk := tokens[current];
      if tk.tokenType == t && (v == AnyValue || v == tk.value) {
        current := current + 1;
        return true;
      }
      return false;
    }

    method ParsePrimary() returns (node: Ast)
      requires Valid()
      modifies this`current, this`parseErrors
      ensures Valid() && PResult(node, State()) == Primary(Context(), old(State()))
      decreases |tokens| - current, 0
    {
      var tk := Peek();
      if tk.tokenType == IntegerLiteral {
        current := current + 1;
        node := MakeNode(IntLit, constantTable[tk.value], tk.line);
      } else if tk.tokenType == Identifier {
        current := current + 1;
        node := MakeNode(Var, identifierTable[tk.value], tk.line);
      } else if tk.tokenType == StringLiteral {
        current := current + 1;
        node := MakeNode(Str, constantTable[tk.value], tk.line);
      } else if tk.tokenType == Delimiter && tk.value == '(' as int {
        var lparen := Match(Delimiter, '(' as int);
        node := ParseExpression();
        ExpectToken(Delimiter, ')' as int, MissingRParen);
      } else {
        Error(UnrecognizedExpression);
        node := Null;
      }
    }

    method ParseMul() returns (left: Ast)
      requires Valid()
      modifies this`current, this`parseErrors
      ensures Valid() && PResult(left, State()) == MulLevel(Context(), old(State()))
      decreases |tokens| - current, 2
    {
      left := ParsePrimary();
      while Matches(Context(), current, Operator, '*' as int)
        invariant Valid() && WellShaped(left) && old(current) <= current
        invariant MulLoop(Context(), left, State()) == MulLevel(Context(), old(State()))
        decreases |tokens| - current
      {
        var matched := Match(Operator, '*' as int);
        var right := ParsePrimary();
        left := Binary(Mul, left, right);
      }
    }

    method ParseAdd() returns (left: Ast)
      requires Valid()
      modifies this`current, this`parseErrors
      ensures Valid() && PResult(left, State()) == AddLevel(Context(), old(State()))
      decreases |tokens| - current, 4
    {
      left := ParseMul();
      while Matches(Context(), current, Operator, '+' as int) || Matches(Context(), current, Operator, '-' as int)
        invariant Valid() && WellShaped(left) && old(current) <= current
        invariant AddLoop(Context(), left, State()) == AddLevel(Context(), old(State()))
        decreases |tokens| - current
      {
        ghost var s0, left0 := State(), left;
        var op := Peek().value;
        var matched := Match(Operator, op);
        var right := ParseMul();
        AddLoopStep(Context(), left0, s0);
        left := Binary(if op == '+' as int then Add else Sub, left, right);
      }
    }

    method ParseRelational() returns (left: Ast)
      requires Valid()
      modifies this`current, this`parseErrors
      ensures Valid() && PResult(left, State()) == RelLevel(Context(), old(State()))
      decreases |tokens| - current, 6
    {
      left := ParseAdd();
      while Matches(Context(), current, Operator, '<' as int) || Matches(Context(), current, Operator, '=' as int)
        invariant Valid() && WellShaped(left) && old(current) <= current
        invariant RelLoop(Context(), left, State()) == RelLevel(Context(), old(State()))
        decreases |tokens| - current
      {
        ghost var s0, left0 := State(), left;
        var op := Peek().value;
        var matched := Match(Operator, op);
        var right := ParseAdd();
        RelLoopStep(Context(), left0, s0);
        left := Binary(if op == '<' as int then Lt else Eq, left, right);
      }
    }

    method ParseExpression() returns (node: Ast)
      requires Valid()
      modifies this`current, this`parseErrors
      ensures Valid() && PResult(node, State()) == Expression(Context(), old(State()))
      decreases |tokens| - current, 7
    {
      node := ParseRelational();
    }

    /** The tail shared by the `int` and `String` declaration branches. */
    method ParseDeclRest(varType: string) returns (node: Ast)
      requires Valid()
      modifies this`current, this`parseErrors
      ensures Valid() && PResult(node, State()) == DeclRest(Context(), old(State()), varType)
    {
      var named := Match(Identifier, AnyValue);
      if !named {
        Error(MissingDeclIdentifier);
        return Null;
      }
      var declLine := tokens[current - 1].line;
      var varName := identifierTable[tokens[current - 1].value];
      var kids: seq<Ast> := [];
      var initialized := Match(Operator, '=' as int);
      if initialized {
        var init := ParseExpression();
        kids := [init];
      }
      node := Node(VarDecl, varName, varType, declLine, kids);
      ExpectToken(Delimiter, ';' as int, MissingDeclSemicolon);
    }

    method ParseStatement() returns (node: Ast)
      requires Valid()
      modifies this`current, this`parseErrors, this`hung
      ensures Valid() && PResult(node, State()) == Statement(Context(), old(State()))
      decreases |tokens| - current, 0
    {
      var isBlock := Match(Delimiter, '{' as int);
      if isBlock {
        node := ParseBlockRest();
        return;
      }
      var isInt := Match(Keyword, KwInt);
      if isInt {
        node := ParseDeclRest("int");
        return;
      }
      var isString := Match(Keyword, KwString);
      if isString {
        node := ParseDeclRest("String");
        return;
      }
      var isKeyword := Match(Keyword, AnyValue);
      if isKeyword {
        var tk := tokens[current - 1];
        if tk.value == KwIf {
          node := ParseIfRest();
          return;
        } else if tk.value == KwWhile {
          node := ParseWhileRest();
          return;
        }
      } else {
        var isIdentifier := Match(Identifier, AnyValue);
        if isIdentifier {
          node := ParseAssignRest(tokens[current - 1]);
          return;
        }
      }
      Error(UnparseableStatement);
      node := Null;
    }

    /** The block branch after `{`: statements until `}`, null results dropped. */
    method ParseBlockRest() returns (node: Ast)
      requires Valid()
      modifies this`current, this`parseErrors, this`hung
      ensures Valid() && PResult(node, State()) == BlockLoop(Context(), [], old(State()))
      decreases |tokens| - current, 1
    {
      var kids: seq<Ast> := [];
      while true
        invariant Valid() && old(current) <= current
        invariant forall i | 0 <= i < |kids| :: WellShaped(kids[i])
        invariant BlockLoop(Context(), kids, State()) == BlockLoop(Context(), [], old(State()))
        decreases |tokens| - current
      {
        var closed := Match(Delimiter, '}' as int);
        if closed { break; }
        var before := current;
        var stmt := ParseStatement();
        if !stmt.Null? { kids := kids + [stmt]; }
        if hung || current == before {
          hung := true;  // the source repeats this iteration for ever
          break;
        }
      }
      node := Node(Block, "", "", 0, kids);
    }

    /** The `if` branch after the keyword. */
    method ParseIfRest() returns (node: Ast)
      requires Valid()
      modifies this`current, this`parseErrors, this`hung
      ensures Valid() && PResult(node, State()) == IfRest(Context(), old(State()))
      decreases |tokens| - current, 1
    {
      var m := Match(Delimiter, '(' as int);
      var cond := ParseExpression();
      m := Match(Delimiter, ')' as int);
      var thenBranch := ParseStatement();
      ExpectElse();
      var elseBranch := ParseStatement();
      node := Node(If, "", "", 0, [cond, thenBranch, elseBranch]);
    }

    /** `if (!match(KEYWORD) || tokens[current - 1].value != KW_ELSE) error(...)`. */
    method ExpectElse()
      requires Valid()
      modifies this`current, this`parseErrors
      ensures Valid() && State() == ElseKeyword(Context(), old(State()))
    {
      var hasKeyword := Match(Keyword, AnyValue);
      if !hasKeyword || tokens[current - 1].value != KwElse { Error(MissingElse); }
    }

    /** The `while` branch after the keyword. */
    method ParseWhileRest() returns (node: Ast)
      requires Valid()
      modifies this`current, this`parseErrors, this`hung
      ensures Valid() && PResult(node, State()) == WhileRest(Context(), old(State()))
      decreases |tokens| - current, 1
    {
      var m := Match(Delimiter, '(' as int);
      var cond := ParseExpression();
      m := Match(Delimiter, ')' as int);
      var body := ParseStatement();
      node := Node(While, "", "", 0, [cond, body]);
    }

    /** The assignment branch after the identifier `name`. */
    method ParseAssignRest(name: Token) returns (node: Ast)
      requires Valid() && name.tokenType == Identifier && IndexesTables(name, identifierTable, constantTable)
      modifies this`current, this`parseErrors
      ensures Valid() && PResult(node, State()) == AssignRest(Context(), name, old(State()))
    {
      var isAssign := Match(Operator, '=' as int);
      if isAssign {
        var rhs := ParseExpression();
        var m := Match(Delimiter, ';' as int);
        node := Node(Assign, identifierTable[name.value], "", name.line, [rhs]);
      } else {
        Error(UnparseableStatement);
        node := Null;
      }
    }

    method ParseMainClass() returns (root: Ast)
      requires Valid()
      modifies this`current, this`parseErrors, this`hung
      ensures Valid() && PResult(root, State()) == MainClass(Context(), old(State()))
    {
      ParseMainHeader();
      var mainBody := ParseStatement();
      ExpectToken(Delimiter, '}' as int, MissingClassRBrace);
      root := Node(Program, "", "", 0, [mainBody]);
    }

    /** The header of `parseMainClass`, up to the `)` after main's parameter. */
    method ParseMainHeader()
      requires Valid()
      modifies this`current, this`parseErrors
      ensures Valid() && State() == MainHeader(Context(), old(State()))
    {
      ExpectToken(Keyword, AnyValue, MissingClass);
      ExpectToken(Identifier, AnyValue, MissingClassName);
      ExpectToken(Delimiter, '{' as int, MissingClassLBrace);
      ghost var afterBrace := State();
      for i := 0 to 4
        invariant Valid()
        invariant State() == ExpectKeywords(Context(), afterBrace, i)
      {
        ExpectToken(Keyword, AnyValue, MissingMainHeader);
      }
      ExpectToken(Delimiter, '(' as int, MissingLParen);
      // main's parameter list is matched without error reporting
      var m := Match(Keyword, AnyValue);
      m := Match(Delimiter, '[' as int);
      m := Match(Delimiter, ']' as int);
      m := Match(Identifier, AnyValue);
      m := Match(Delimiter, ')' as int);
    }

    /** The recurring `if (!match(type, val)) error(msg);`. */
    method ExpectToken(t: TokenType, v: int, msg: SyntaxError)
      requires Valid()
      modifies this`current, this`parseErrors
      ensures Valid() && State() == Expect(Context(), old(State()), t, v, msg)
    {
      var m := Match(t, v);
      if !m { Error(msg); }
    }

  }

  /** `parse`: a fresh cursor and error list over the given tokens, then
      the main class. Only the new parser object is changed. */
  method Parse(tks: seq<Token>, ids: seq<string>, consts: seq<string>)
    returns (root: Ast, errors: seq<ParseError>, hung: bool)
    requires AllIndexTables(tks, ids, consts)
    ensures root == ParserSpec.Parse(Ctx(tks, ids, consts)).node
    ensures errors == ParserSpec.Parse(Ctx(tks, ids, consts)).st.errors
    ensures hung == ParserSpec.Parse(Ctx(tks, ids, consts)).st.hung
  {
    var p := new Parser(tks, ids, consts);
    root := p.ParseMainClass();
    errors, hung := p.parseErrors, p.hung;
  }
}
