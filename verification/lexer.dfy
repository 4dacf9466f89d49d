/** The scanner of src/lex.cpp: a character-by-character loop over the
    source lines that emits tokens, interns identifiers and constants into
    two deduplicating tables and records lexical errors without stopping.

    The specification is the function `Lex` (built from `ScanStep`, one
    iteration of the inner loop); the class `Lexer` holds the three global
    tables and its method `RunLexer` is proved to compute `Lex`. */
module Lex {
  import opened Tokens

  // ---------------------------------------------------------------------
  // Character classes (<cctype> in the "C" locale) and the source's helpers
  // ---------------------------------------------------------------------

  predicate IsSpace(c: char) { c == ' ' || 9 <= c as int <= 13 }
  predicate IsAlpha(c: char) { 'a' <= c <= 'z' || 'A' <= c <= 'Z' }
  predicate IsDigit(c: char) { '0' <= c <= '9' }
  predicate IsAlnum(c: char) { IsAlpha(c) || IsDigit(c) }

  /** May continue an identifier: `isalnum(c) || c == '_'`. */
  predicate IsWordChar(c: char) { IsAlnum(c) || c == '_' }

  /** May start an identifier: `isalpha(c) || c == '_'`. */
  predicate IsWordStart(c: char) { IsAlpha(c) || c == '_' }

  predicate IsDelimiter(c: char) {
    c == '{' || c == '}' || c == '(' || c == ')' ||
    c == '[' || c == ']' || c == ';' || c == ','
  }

  predicate IsOperator(c: char) {
    c == '+' || c == '-' || c == '*' || c == '<' || c == '='
  }

  /** `isValidIdentifier`; an empty string fails on its first character. */
  predicate IsValidIdentifier(id: string) {
    |id| > 0 && IsWordStart(id[0]) && forall k | 0 <= k < |id| :: IsWordChar(id[k])
  }

  // ---------------------------------------------------------------------
  // Errors and the interning tables
  // ---------------------------------------------------------------------

  /** `LexErrorType`; the message text `addError` attaches is determined by it. */
  datatype LexErrorType = UnknownChar | InvalidIdentifier | InvalidNumber | UnterminatedString

  datatype LexError = LexError(errorType: LexErrorType, line: int, column: int, problematicChar: char)

  predicate NoDuplicates(table: seq<string>) {
    forall a, b | 0 <= a < b < |table| :: table[a] != table[b]
  }

  /** `std::find` over a table: the first index holding `s`, or -1. */
  function Find(table: seq<string>, s: string): (r: int)
    ensures -1 <= r < |table|
    ensures r == -1 <==> s !in table
    ensures r >= 0 ==> table[r] == s && forall k | 0 <= k < r :: table[k] != s
  {
    if table == [] then -1
    else if table[0] == s then 0
    else
      var r := Find(table[1..], s);
      if r == -1 then -1 else r + 1
  }

  datatype Interned = Interned(table: seq<string>, index: nat)

  /** The find-or-append rule shared by both tables. */
  function Intern(table: seq<string>, s: string): (r: Interned)
    ensures r.index < |r.table| && r.table[r.index] == s && table <= r.table
    ensures s in table ==> r.table == table && forall k | 0 <= k < r.index :: table[k] != s
    ensures s !in table ==> r.table == table + [s] && r.index == |table|
    ensures NoDuplicates(table) ==> NoDuplicates(r.table)
  {
    var found := Find(table, s);
    if found == -1 then Interned(table + [s], |table|) else Interned(table, found)
  }

  /** Interning text that a duplicate-free table already holds at `k`
      returns `k` and leaves the table as it is: the same text always gets
      the same index, whichever kind of literal it came from. */
  lemma InternExisting(table: seq<string>, s: string, k: nat)
    requires NoDuplicates(table) && k < |table| && table[k] == s
    ensures Intern(table, s) == Interned(table, k)
  {
  }

  // ---------------------------------------------------------------------
  // The runs that the inner loops read
  // ---------------------------------------------------------------------

  /** End of the run of identifier characters starting at `i`. */
  function WordEnd(line: string, i: nat): (j: nat)
    requires i <= |line|
    ensures i <= j <= |line|
    ensures forall k | i <= k < j :: IsWordChar(line[k])
    ensures j == |line| || !IsWordChar(line[j])
    decreases |line| - i
  {
    if i < |line| && IsWordChar(line[i]) then WordEnd(line, i + 1) else i
  }

  /** End of the run of digits starting at `i`; the source stops on the
      terminating '\0' of the string, here an explicit bound check. */
  function DigitEnd(line: string, i: nat): (j: nat)
    requires i <= |line|
    ensures i <= j <= |line|
    ensures forall k | i <= k < j :: IsDigit(line[k])
    ensures j == |line| || !IsDigit(line[j])
    decreases |line| - i
  {
    if i < |line| && IsDigit(line[i]) then DigitEnd(line, i + 1) else i
  }

  /** Index of the first '"' at or after `i`, or the end of the line. */
  function QuoteEnd(line: string, i: nat): (j: nat)
    requires i <= |line|
    ensures i <= j <= |line|
    ensures forall k | i <= k < j :: line[k] != '"'
    ensures j == |line| || line[j] == '"'
    decreases |line| - i
  {
    if i < |line| && line[i] != '"' then QuoteEnd(line, i + 1) else i
  }

  // ---------------------------------------------------------------------
  // The specification of the scan loop
  // ---------------------------------------------------------------------

  /** Everything the scan writes: the local token list and the three globals. */
  datatype LexState = LexState(tokens: seq<Token>, ids: seq<string>, consts: seq<string>, errors: seq<LexError>)

  /** One iteration of the per-line loop at index `i`: it moves to `pos`, or
      it stalls (a '/' not followed by '/' leaves `i` unchanged, and the
      source then repeats that iteration forever). */
  datatype Step = Next(pos: nat, st: LexState) | Stall

  function AddToken(s: LexState, t: Token): LexState {
    s.(tokens := s.tokens + [t])
  }

  function AddError(s: LexState, e: LexErrorType, line: int, column: int, c: char): LexState {
    s.(errors := s.errors + [LexError(e, line, column, c)])
  }

  function ScanStep(line: string, lineNo: int, i: nat, s: LexState): (r: Step)
    requires i < |line|
    ensures r.Next? ==> i < r.pos <= |line|
  {
    var column := i + 1;
    var c := line[i];
    if IsSpace(c) then Next(i + 1, s)
    else if IsWordStart(c) then
      var j := WordEnd(line, i);
      var word := line[i..j];
      if word in KeywordMap then
        Next(j, AddToken(s, Token(Keyword, KeywordMap[word], lineNo, column)))
      else
        var r := Intern(s.ids, word);
        Next(j, AddToken(s.(ids := r.table), Token(Identifier, r.index, lineNo, column)))
    else if IsDigit(c) then
      var leadingZero := c == '0' && i + 1 < |line| && IsDigit(line[i + 1]);
      var s1 := if leadingZero then AddError(s, InvalidNumber, lineNo, column, c) else s;
      var j := DigitEnd(line, i);
      if j < |line| && IsWordStart(line[j]) then
        Next(WordEnd(line, j), AddError(s1, InvalidIdentifier, lineNo, column, line[j]))
      else if leadingZero then Next(j, s1)
      else
        var r := Intern(s.consts, line[i..j]);
        Next(j, AddToken(s.(consts := r.table), Token(IntegerLiteral, r.index, lineNo, column)))
    else if c == '"' then
      var q := QuoteEnd(line, i + 1);
      if q == |line| then Next(|line|, AddError(s, UnterminatedString, lineNo, column, '"'))
      else
        var r := Intern(s.consts, line[i + 1..q]);
        Next(q + 1, AddToken(s.(consts := r.table), Token(StringLiteral, r.index, lineNo, column)))
    else if IsOperator(c) then Next(i + 1, AddToken(s, Token(Operator, c as int, lineNo, column)))
    else if IsDelimiter(c) then Next(i + 1, AddToken(s, Token(Delimiter, c as int, lineNo, column)))
    else if c == '$' then Next(i + 1, AddToken(s, Token(EndOfFile, -1, lineNo, column)))
    else if c == '/' then
      // `//` breaks out of the line loop: the rest of the line is skipped
      if i + 1 < |line| && line[i + 1] == '/' then Next(|line|, s) else Stall
    else Next(i + 1, AddError(s, UnknownChar, lineNo, column, c))
  }

  /** The outcome of scanning: the state reached, and whether the source
      would be stuck there forever. */
  datatype Run = Run(st: LexState, stuck: bool)

  /** The per-line loop from index `i` on. */
  function ScanLine(line: string, lineNo: int, i: nat, s: LexState): Run
    requires i <= |line|
    decreases |line| - i
  {
    if i == |line| then Run(s, false)
    else
      match ScanStep(line, lineNo, i, s)
      case Next(j, s') => ScanLine(line, lineNo, j, s')
      case Stall => Run(s, true)
  }

  /** The outer loop from line index `k` on; line numbers are 1-based. */
  function LexFrom(lines: seq<string>, k: nat, s: LexState): Run
    requires k <= |lines|
    decreases |lines| - k
  {
    if k == |lines| then Run(s, false)
    else
      var r := ScanLine(lines[k], k + 1, 0, s);
      if r.stuck then r else LexFrom(lines, k + 1, r.st)
  }

  /** A run of `runLexer`: the token list starts empty and the error list is
      cleared, but both tables keep whatever earlier runs left in them. */
  function Lex(lines: seq<string>, ids: seq<string>, consts: seq<string>): Run {
    LexFrom(lines, 0, LexState([], ids, consts, []))
  }

  // ---------------------------------------------------------------------
  // The imperative scanner
  // ---------------------------------------------------------------------

  /** The identifier loop: reads the maximal run of identifier characters. */
  method ReadWord(line: string, i: nat) returns (word: string, j: nat)
    requires i <= |line|
    ensures j == WordEnd(line, i) && word == line[i..j]
  {
    word, j := "", i;
    while j < |line| && IsWordChar(line[j])
      invariant i <= j <= |line|
      invariant word == line[i..j]
      invariant WordEnd(line, j) == WordEnd(line, i)
    {
      word := word + [line[j]];
      j := j + 1;
    }
  }

  /** The loop that skips the malformed tail after a digit run. */
  method SkipWord(line: string, i: nat) returns (j: nat)
    requires i <= |line|
    ensures j == WordEnd(line, i)
  {
    j := i;
    while j < |line| && IsWordChar(line[j])
      invariant i <= j <= |line|
      invariant WordEnd(line, j) == WordEnd(line, i)
    {
      j := j + 1;
    }
  }

  /** The digit loop. */
  method ReadDigits(line: string, i: nat) returns (num: string, j: nat)
    requires i <= |line|
    ensures j == DigitEnd(line, i) && num == line[i..j]
  {
    num, j := "", i;
    while j < |line| && IsDigit(line[j])
      invariant i <= j <= |line|
      invariant num == line[i..j]
      invariant DigitEnd(line, j) == DigitEnd(line, i)
    {
      num := num + [line[j]];
      j := j + 1;
    }
  }

  /** The string-literal loop, entered on the opening quote at `i`. */
  method ReadString(line: string, i: nat) returns (str: string, j: nat, terminated: bool)
    requires i < |line| && line[i] == '"'
    ensures terminated <==> QuoteEnd(line, i + 1) < |line|
    ensures str == line[i + 1..QuoteEnd(line, i + 1)]
    ensures j == if terminated then QuoteEnd(line, i + 1) + 1 else |line|
  {
    str, terminated := "", false;
    j := i + 1;
    while j < |line|
      invariant i + 1 <= j <= |line|
      invariant str == line[i + 1..j]
      invariant QuoteEnd(line, j) == QuoteEnd(line, i + 1)
    {
      if line[j] == '"' {
        terminated := true;
        j := j + 1;
        break;
      }
      str := str + [line[j]];
      j := j + 1;
    }
  }

  /** The global state of src/lex.cpp: the two tables and the error list. */
  class Lexer {
    var identifierTable: seq<string>
    var constantTable: seq<string>
    var errorList: seq<LexError>

    constructor ()
      ensures identifierTable == [] && constantTable == [] && errorList == []
    {
      identifierTable, constantTable, errorList := [], [], [];
    }

    function State(tokens: seq<Token>): LexState
      reads this
    {
      LexState(tokens, identifierTable, constantTable, errorList)
    }

    method AddError(errorType: LexErrorType, line: int, column: int, c: char)
      modifies this`errorList
      ensures errorList == old(errorList) + [LexError(errorType, line, column, c)]
    {
      errorList := errorList + [LexError(errorType, line, column, c)];
    }

    /** One iteration of the per-line loop of `runLexer` at index `i`. */
    method ScanToken(line: string, lineNumber: int, i: nat, tokens: seq<Token>)
      returns (next: nat, tokensOut: seq<Token>, stalled: bool)
      requires i < |line|
      modifies this`identifierTable, this`constantTable, this`errorList
      ensures stalled ==> ScanStep(line, lineNumber, i, old(State(tokens))) == Stall
      ensures stalled ==> State(tokensOut) == old(State(tokens))
      ensures !stalled ==> ScanStep(line, lineNumber, i, old(State(tokens))) == Next(next, State(tokensOut))
    {
      var column := i + 1;
      next, tokensOut, stalled := i, tokens, false;
      var c := line[i];
      if IsSpace(c) {
        next := i + 1;
      } else if IsWordStart(c) {
        var word;
        word, next := ReadWord(line, i);
        if word in KeywordMap {
          tokensOut := tokens + [Token(Keyword, KeywordMap[word], lineNumber, column)];
        } else {
          var found := Find(identifierTable, word);
          var index := if found == -1 then |identifierTable| else found;
          if found == -1 { identifierTable := identifierTable + [word]; }
          tokensOut := tokens + [Token(Identifier, index, lineNumber, column)];
        }
      } else if IsDigit(c) {
        var hasError := false;
        if c == '0' && i + 1 < |line| && IsDigit(line[i + 1]) {
          AddError(InvalidNumber, lineNumber, column, c);
          hasError := true;
        }
        var num;
        num, next := ReadDigits(line, i);
        if next < |line| && IsWordStart(line[next]) {
          AddError(InvalidIdentifier, lineNumber, column, line[next]);
          next := SkipWord(line, next);
        } else if !hasError {
          var found := Find(constantTable, num);
          var index := if found == -1 then |constantTable| else found;
          if found == -1 { constantTable := constantTable + [num]; }
          tokensOut := tokens + [Token(IntegerLiteral, index, lineNumber, column)];
        }
      } else if c == '"' {
        var str, terminated;
        str, next, terminated := ReadString(line, i);
        if !terminated {
          AddError(UnterminatedString, lineNumber, column, '"');
        } else {
          var found := Find(constantTable, str);
          var index := if found == -1 then |constantTable| else found;
          if found == -1 { constantTable := constantTable + [str]; }
          tokensOut := tokens + [Token(StringLiteral, index, lineNumber, column)];
        }
      } else if IsOperator(c) {
        tokensOut := tokens + [Token(Operator, c as int, lineNumber, column)];
        next := i + 1;
      } else if IsDelimiter(c) {
        tokensOut := tokens + [Token(Delimiter, c as int, lineNumber, column)];
        next := i + 1;
      } else if c == '$' {
        tokensOut := tokens + [Token(EndOfFile, -1, lineNumber, column)];
        next := i + 1;
      } else if c == '/' {
        if i + 1 < |line| && line[i + 1] == '/' {
          next := |line|;  // `break`: the rest of the line is a comment
        } else {
          stalled := true;  // `i` is not advanced: the source loops forever here
        }
      } else {
        AddError(UnknownChar, lineNumber, column, c);
        next := i + 1;
      }
    }

    /** `runLexer` over the lines of the input file. When `finished` is
        false the source never returns; the state is the one it spins in. */
    method RunLexer(lines: seq<string>) returns (tokens: seq<Token>, finished: bool)
      modifies this
      ensures finished == !Lex(lines, old(identifierTable), old(constantTable)).stuck
      ensures State(tokens) == Lex(lines, old(identifierTable), old(constantTable)).st
    {
      tokens := [];
      var lineNumber := 1;
      errorList := [];
      ghost var whole := LexFrom(lines, 0, State(tokens));
      var k := 0;
      while k < |lines|
        invariant 0 <= k <= |lines| && lineNumber == k + 1
        invariant LexFrom(lines, k, State(tokens)) == whole
      {
        var line := lines[k];
        ghost var atLineStart := State(tokens);
        var i := 0;
        while i < |line|
          invariant i <= |line|
          invariant ScanLine(line, lineNumber, i, State(tokens)) == ScanLine(line, lineNumber, 0, atLineStart)
        {
          var next, stalled;
          next, tokens, stalled := ScanToken(line, lineNumber, i, tokens);
          if stalled {
            finished := false;
            return;
          }
          i := next;
        }
        lineNumber := lineNumber + 1;
        k := k + 1;
      }
      finished := true;
    }
  }

  // ---------------------------------------------------------------------
  // Properties of the scan
  // ---------------------------------------------------------------------

  /** The `isValidIdentifier` failure branch is dead: every word the
      identifier loop reads is a well-formed identifier. */
  lemma WordIsValidIdentifier(line: string, i: nat)
    requires i < |line| && IsWordStart(line[i])
    ensures IsValidIdentifier(line[i..WordEnd(line, i)])
  {
    var w := line[i..WordEnd(line, i)];
    assert w[0] == line[i];
    forall k | 0 <= k < |w| ensures IsWordChar(w[k]) {
      assert w[k] == line[i + k];
    }
  }

  /** A word in the keyword table yields a KEYWORD token carrying its code
      and leaves the identifier table alone; any other word is interned. */
  lemma WordStep(line: string, lineNo: int, i: nat, s: LexState)
    requires i < |line| && IsWordStart(line[i])
    ensures var j := WordEnd(line, i);
      var word := line[i..j];
      var r := ScanStep(line, lineNo, i, s);
      && r.Next? && r.pos == j && r.st.errors == s.errors && r.st.consts == s.consts
      && (word in KeywordMap ==>
            r.st.ids == s.ids && r.st.tokens == s.tokens + [Token(Keyword, KeywordMap[word], lineNo, i + 1)])
      && (word !in KeywordMap && word in s.ids ==>
            r.st.ids == s.ids && |r.st.tokens| == |s.tokens| + 1
            && r.st.tokens[|s.tokens|].tokenType == Identifier
            && s.ids[r.st.tokens[|s.tokens|].value] == word)
      && (word !in KeywordMap && word !in s.ids ==>
            r.st.ids == s.ids + [word]
            && r.st.tokens == s.tokens + [Token(Identifier, |s.ids|, lineNo, i + 1)])
  {
  }

  /** A digit run that does not hit the two error rules is interned into
      the constant table as an INTEGER_LITERAL token. */
  lemma NumberStep(line: string, lineNo: int, i: nat, s: LexState)
    requires i < |line| && IsDigit(line[i])
    requires !(line[i] == '0' && i + 1 < |line| && IsDigit(line[i + 1]))
    requires DigitEnd(line, i) == |line| || !IsWordStart(line[DigitEnd(line, i)])
    ensures var j := DigitEnd(line, i);
      var r := ScanStep(line, lineNo, i, s);
      && r.Next? && r.pos == j && r.st.errors == s.errors && r.st.ids == s.ids
      && r.st.consts == Intern(s.consts, line[i..j]).table
      && r.st.tokens == s.tokens + [Token(IntegerLiteral, Intern(s.consts, line[i..j]).index, lineNo, i + 1)]
      && r.st.consts[r.st.tokens[|s.tokens|].value] == line[i..j]
  {
  }

  /** A terminated string literal is interned into the same constant table
      as the digit runs, and its token's column is the opening quote's. */
  lemma StringStep(line: string, lineNo: int, i: nat, s: LexState)
    requires i < |line| && line[i] == '"' && QuoteEnd(line, i + 1) < |line|
    ensures var q := QuoteEnd(line, i + 1);
      var r := ScanStep(line, lineNo, i, s);
      && r.Next? && r.pos == q + 1 && r.st.errors == s.errors && r.st.ids == s.ids
      && r.st.consts == Intern(s.consts, line[i + 1..q]).table
      && r.st.tokens == s.tokens + [Token(StringLiteral, Intern(s.consts, line[i + 1..q]).index, lineNo, i + 1)]
      && r.st.consts[r.st.tokens[|s.tokens|].value] == line[i + 1..q]
  {
  }

  /** A '0' followed by a digit records one INVALID_NUMBER error, consumes
      the whole digit run, and emits no token. */
  lemma LeadingZeroStep(line: string, lineNo: int, i: nat, s: LexState)
    requires i + 1 < |line| && line[i] == '0' && IsDigit(line[i + 1])
    requires DigitEnd(line, i) == |line| || !IsWordStart(line[DigitEnd(line, i)])
    ensures ScanStep(line, lineNo, i, s)
         == Next(DigitEnd(line, i), AddError(s, InvalidNumber, lineNo, i + 1, '0'))
  {
  }

  /** A digit run followed by a letter or '_' records INVALID_IDENTIFIER,
      skips the trailing identifier characters and emits no token. */
  lemma DigitsThenLetterStep(line: string, lineNo: int, i: nat, s: LexState)
    requires i < |line| && IsDigit(line[i])
    requires DigitEnd(line, i) < |line| && IsWordStart(line[DigitEnd(line, i)])
    ensures var j := DigitEnd(line, i);
      var r := ScanStep(line, lineNo, i, s);
      && r.Next? && r.pos == WordEnd(line, j)
      && r.st.tokens == s.tokens && r.st.ids == s.ids && r.st.consts == s.consts
      && r.st.errors[|r.st.errors| - 1] == LexError(InvalidIdentifier, lineNo, i + 1, line[j])
      && |r.st.errors| == |s.errors| + (if line[i] == '0' && IsDigit(line[i + 1]) then 2 else 1)
  {
  }

  /** An opening quote with no closing quote on its line records exactly one
      UNTERMINATED_STRING error at the quote's column and ends the line. */
  lemma UnterminatedStringStep(line: string, lineNo: int, i: nat, s: LexState)
    requires i < |line| && line[i] == '"'
    requires forall k | i < k < |line| :: line[k] != '"'
    ensures ScanStep(line, lineNo, i, s)
         == Next(|line|, AddError(s, UnterminatedString, lineNo, i + 1, '"'))
  {
    assert QuoteEnd(line, i + 1) == |line|;
  }

  /** Single characters: operators and delimiters carry their character
      code, '$' is END_OF_FILE with value -1, `//` ends the line, a lone '/'
      stalls, and anything else unrecognised is one UNKNOWN_CHAR error. */
  lemma SingleCharStep(line: string, lineNo: int, i: nat, s: LexState)
    requires i < |line|
    requires var c := line[i]; !IsSpace(c) && !IsWordStart(c) && !IsDigit(c) && c != '"'
    ensures var c := line[i];
      var r := ScanStep(line, lineNo, i, s);
      && (IsOperator(c) ==> r == Next(i + 1, AddToken(s, Token(Operator, c as int, lineNo, i + 1))))
      && (IsDelimiter(c) ==> r == Next(i + 1, AddToken(s, Token(Delimiter, c as int, lineNo, i + 1))))
      && (c == '$' ==> r == Next(i + 1, AddToken(s, Token(EndOfFile, -1, lineNo, i + 1))))
      && (c == '/' ==> (r == Stall <==> !(i + 1 < |line| && line[i + 1] == '/')))
      && (c == '/' && i + 1 < |line| && line[i + 1] == '/' ==> r == Next(|line|, s))
      && (!IsOperator(c) && !IsDelimiter(c) && c != '$' && c != '/' ==>
            r == Next(i + 1, AddError(s, UnknownChar, lineNo, i + 1, c)))
  {
  }

  /** What a step may do to the state: tokens, tables and errors only grow
      at their ends, and each step emits at most one token. */
  predicate Grows(s: LexState, s': LexState) {
    && s.tokens <= s'.tokens && |s'.tokens| <= |s.tokens| + 1
    && s.ids <= s'.ids && s.consts <= s'.consts && s.errors <= s'.errors
  }

  /** Both tables are duplicate-free and every token indexes into them. */
  predicate TablesOk(s: LexState) {
    NoDuplicates(s.ids) && NoDuplicates(s.consts) && AllIndexTables(s.tokens, s.ids, s.consts)
  }

  lemma AllIndexTablesGrow(tokens: seq<Token>, ids: seq<string>, consts: seq<string>, ids': seq<string>, consts': seq<string>)
    requires AllIndexTables(tokens, ids, consts) && ids <= ids' && consts <= consts'
    ensures AllIndexTables(tokens, ids', consts')
  {
  }

  lemma ScanStepKeepsTables(line: string, lineNo: int, i: nat, s: LexState)
    requires i < |line| && TablesOk(s)
    ensures var r := ScanStep(line, lineNo, i, s);
      r.Next? ==> Grows(s, r.st) && TablesOk(r.st)
  {
    var r := ScanStep(line, lineNo, i, s);
    if r.Next? {
      AllIndexTablesGrow(s.tokens, s.ids, s.consts, r.st.ids, r.st.consts);
    }
  }

  lemma {:induction false} ScanLineKeepsTables(line: string, lineNo: int, i: nat, s: LexState)
    requires i <= |line| && TablesOk(s)
    ensures var r := ScanLine(line, lineNo, i, s);
      TablesOk(r.st) && s.ids <= r.st.ids && s.consts <= r.st.consts
      && s.tokens <= r.st.tokens && s.errors <= r.st.errors
    decreases |line| - i
  {
    if i < |line| {
      ScanStepKeepsTables(line, lineNo, i, s);
      match ScanStep(line, lineNo, i, s)
      case Next(j, s') => ScanLineKeepsTables(line, lineNo, j, s');
      case Stall =>
    }
  }

  lemma {:induction false} LexFromKeepsTables(lines: seq<string>, k: nat, s: LexState)
    requires k <= |lines| && TablesOk(s)
    ensures var r := LexFrom(lines, k, s);
      TablesOk(r.st) && s.ids <= r.st.ids && s.consts <= r.st.consts
    decreases |lines| - k
  {
    if k < |lines| {
      ScanLineKeepsTables(lines[k], k + 1, 0, s);
      var r := ScanLine(lines[k], k + 1, 0, s);
      if !r.stuck {
        LexFromKeepsTables(lines, k + 1, r.st);
      }
    }
  }

  /** Across a whole run both tables stay free of duplicates, the tables
      left by earlier runs are kept as prefixes, and every token's value is
      a valid index into the table it refers to. */
  lemma LexKeepsTables(lines: seq<string>, ids: seq<string>, consts: seq<string>)
    requires NoDuplicates(ids) && NoDuplicates(consts)
    ensures var r := Lex(lines, ids, consts);
      && NoDuplicates(r.st.ids) && NoDuplicates(r.st.consts)
      && ids <= r.st.ids && consts <= r.st.consts
      && AllIndexTables(r.st.tokens, r.st.ids, r.st.consts)
  {
    LexFromKeepsTables(lines, 0, LexState([], ids, consts, []));
  }

  // ---------------------------------------------------------------------
  // Token positions
  // ---------------------------------------------------------------------

  /** Token `t` lies before column `col` of line `ln`. */
  predicate Precedes(t: Token, ln: int, col: int) {
    t.line < ln || (t.line == ln && t.column < col)
  }

  /** Tokens appear in strictly increasing (line, column) order. */
  predicate Ordered(tokens: seq<Token>) {
    forall a, b | 0 <= a < b < |tokens| :: Precedes(tokens[a], tokens[b].line, tokens[b].column)
  }

  lemma {:induction false} ScanLineOrdered(line: string, lineNo: int, i: nat, s: LexState)
    requires i <= |line|
    requires Ordered(s.tokens) && forall t | t in s.tokens :: Precedes(t, lineNo, i + 1)
    ensures var r := ScanLine(line, lineNo, i, s);
      && s.tokens <= r.st.tokens && Ordered(r.st.tokens)
      && forall k | |s.tokens| <= k < |r.st.tokens| ::
           r.st.tokens[k].line == lineNo && i + 1 <= r.st.tokens[k].column <= |line|
    decreases |line| - i
  {
    if i < |line| {
      match ScanStep(line, lineNo, i, s)
      case Next(j, s') =>
        assert s.tokens <= s'.tokens && |s'.tokens| <= |s.tokens| + 1 by {
          ScanStepKeepsTablesShape(line, lineNo, i, s);
        }
        forall t | t in s'.tokens ensures Precedes(t, lineNo, j + 1) {
          var k :| 0 <= k < |s'.tokens| && s'.tokens[k] == t;
          if k >= |s.tokens| { ScanStepTokenAt(line, lineNo, i, s); }
        }
        if |s'.tokens| > |s.tokens| {
          ScanStepTokenAt(line, lineNo, i, s);
          var t := s'.tokens[|s.tokens|];
          assert s'.tokens == s.tokens + [t];
          forall a, b | 0 <= a < b < |s'.tokens|
            ensures Precedes(s'.tokens[a], s'.tokens[b].line, s'.tokens[b].column)
          {
            if b == |s.tokens| { assert s'.tokens[a] in s.tokens; }
          }
        }
        ScanLineOrdered(line, lineNo, j, s');
      case Stall =>
    }
  }

  /** Tokens are only ever appended, one at a time at most. */
  lemma ScanStepKeepsTablesShape(line: string, lineNo: int, i: nat, s: LexState)
    requires i < |line|
    ensures var r := ScanStep(line, lineNo, i, s);
      r.Next? ==> s.tokens <= r.st.tokens && |r.st.tokens| <= |s.tokens| + 1
  {
  }

  /** A token emitted by the step at `i` sits on line `lineNo` at column `i + 1`. */
  lemma ScanStepTokenAt(line: string, lineNo: int, i: nat, s: LexState)
    requires i < |line|
    ensures var r := ScanStep(line, lineNo, i, s);
      r.Next? && |r.st.tokens| > |s.tokens| ==>
        r.st.tokens[|s.tokens|].line == lineNo && r.st.tokens[|s.tokens|].column == i + 1
  {
  }

  lemma {:induction false} LexFromOrdered(lines: seq<string>, k: nat, s: LexState)
    requires k <= |lines|
    requires Ordered(s.tokens) && forall t | t in s.tokens :: Precedes(t, k + 1, 1)
    requires forall t | t in s.tokens :: 1 <= t.line <= k && 1 <= t.column <= |lines[t.line - 1]|
    ensures var r := LexFrom(lines, k, s);
      && Ordered(r.st.tokens)
      && forall t | t in r.st.tokens :: 1 <= t.line <= |lines| && 1 <= t.column <= |lines[t.line - 1]|
    decreases |lines| - k
  {
    if k < |lines| {
      ScanLineOrdered(lines[k], k + 1, 0, s);
      var r := ScanLine(lines[k], k + 1, 0, s);
      forall t | t in r.st.tokens
        ensures 1 <= t.line <= k + 1 && 1 <= t.column <= |lines[t.line - 1]|
        ensures Precedes(t, k + 2, 1)
      {
        var m :| 0 <= m < |r.st.tokens| && r.st.tokens[m] == t;
        if m < |s.tokens| { assert t in s.tokens; }
      }
      if !r.stuck {
        LexFromOrdered(lines, k + 1, r.st);
      }
    }
  }

  /** Token positions: every token's line is a 1-based input line number,
      its column is 1 + the index of its first character on that line, and
      the tokens come out in strictly increasing (line, column) order. */
  lemma LexPositions(lines: seq<string>, ids: seq<string>, consts: seq<string>)
    ensures var r := Lex(lines, ids, consts);
      && Ordered(r.st.tokens)
      && forall t | t in r.st.tokens :: 1 <= t.line <= |lines| && 1 <= t.column <= |lines[t.line - 1]|
  {
    LexFromOrdered(lines, 0, LexState([], ids, consts, []));
  }

  // ---------------------------------------------------------------------
  // Termination
  // ---------------------------------------------------------------------

  /** The only way the scan gets stuck is on a '/': a line without one is
      always scanned to its end. */
  lemma {:induction false} ScanLineWithoutSlash(line: string, lineNo: int, i: nat, s: LexState)
    requires i <= |line| && forall k | i <= k < |line| :: line[k] != '/'
    ensures !ScanLine(line, lineNo, i, s).stuck
    decreases |line| - i
  {
    if i < |line| {
      match ScanStep(line, lineNo, i, s)
      case Next(j, s') => ScanLineWithoutSlash(line, lineNo, j, s');
      case Stall => assert false;
    }
  }

  lemma {:induction false} LexFromWithoutSlash(lines: seq<string>, k: nat, s: LexState)
    requires k <= |lines|
    requires forall m, c | k <= m < |lines| && 0 <= c < |lines[m]| :: lines[m][c] != '/'
    ensures !LexFrom(lines, k, s).stuck
    decreases |lines| - k
  {
    if k < |lines| {
      ScanLineWithoutSlash(lines[k], k + 1, 0, s);
      LexFromWithoutSlash(lines, k + 1, ScanLine(lines[k], k + 1, 0, s).st);
    }
  }

  /** Input without any '/' is always lexed to the end. */
  lemma LexWithoutSlashFinishes(lines: seq<string>, ids: seq<string>, consts: seq<string>)
    requires forall m, c | 0 <= m < |lines| && 0 <= c < |lines[m]| :: lines[m][c] != '/'
    ensures !Lex(lines, ids, consts).stuck
  {
    LexFromWithoutSlash(lines, 0, LexState([], ids, consts, []));
  }

  /** A '/' not followed by '/' where the scan reaches it makes the source
      spin forever, as on the line `a / b`. */
  lemma LoneSlashSticks(s: LexState)
    ensures ScanLine("a / b", 1, 0, s).stuck
  {
    var line := "a / b";
    assert WordEnd(line, 1) == 1;
    assert ScanStep(line, 1, 2, s) == Stall;
  }
}
