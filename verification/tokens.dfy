/** Tokens produced by the lexer and consumed by the parser (src/lex.h). */
module Tokens {

  /** The token categories of `enum TokenType`. `Error` is declared by the
      source but never produced by the scanner. */
  datatype TokenType =
    | Keyword | Identifier | IntegerLiteral | StringLiteral
    | Operator | Delimiter | Error | EndOfFile

  /** `value` is a keyword code, an index into the identifier or constant
      table, a character code (operators, delimiters) or -1 (end of file). */
  datatype Token = Token(tokenType: TokenType, value: int, line: int, column: int)

  // The codes of `enum KeywordValue`, in declaration order.
  const KwClass: int := 0
  const KwPublic: int := 1
  const KwStatic: int := 2
  const KwVoid: int := 3
  const KwMain: int := 4
  const KwIf: int := 5
  const KwElse: int := 6
  const KwWhile: int := 7
  const KwReturn: int := 8
  const KwTrue: int := 9
  const KwFalse: int := 10
  const KwString: int := 11
  const KwInt: int := 12

  /** The case-sensitive keyword table of the lexer. */
  const KeywordMap: map<string, int> := map[
    "class" := KwClass, "public" := KwPublic, "static" := KwStatic, "void" := KwVoid,
    "main" := KwMain, "if" := KwIf, "else" := KwElse, "while" := KwWhile,
    "return" := KwReturn, "true" := KwTrue, "false" := KwFalse,
    "String" := KwString, "int" := KwInt
  ]

  /** A token's value is a valid index wherever the parser uses it as one:
      identifiers into the identifier table, literals into the constant table. */
  predicate IndexesTables(t: Token, ids: seq<string>, consts: seq<string>) {
    && (t.tokenType == Identifier ==> 0 <= t.value < |ids|)
    && (t.tokenType == IntegerLiteral || t.tokenType == StringLiteral ==> 0 <= t.value < |consts|)
  }

  predicate AllIndexTables(tokens: seq<Token>, ids: seq<string>, consts: seq<string>) {
    forall k | 0 <= k < |tokens| :: IndexesTables(tokens[k], ids, consts)
  }
}
