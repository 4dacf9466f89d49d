# miniJava front end: a Dafny model

This project models the five stages of the miniJava compiler:

- the line-by-line **lexer** (`runLexer` and its tables);
- the recursive-descent **parser** (`parse`, the statement grammar and the four expression levels);
- the **semantic checker** (`checkSemantics`);
- the **three-address-code generator** (`generateIR`);
- the **Graphviz exporter** (`exportASTtoDot`).

Each stage is written twice. A pure specification gives the stage's whole effect as a function of its input. An imperative class, or a method, mirrors the source loop by loop and mutable global by mutable global. Each method is proved to compute its specification function, and the properties are proved as lemmas about those functions.

| file | module | models |
|---|---|---|
| `tokens.dfy` | `Tokens` | token types, keyword codes and the keyword table |
| `syntax.dfy` | `Syntax` | AST nodes, `makeNode`, and the tree shapes the parser builds |
| `lexer.dfy` | `Lex` | the lexer: one loop iteration as `ScanStep`, the class `Lexer` with its global tables |
| `parser_spec.dfy` | `ParserSpec` | the parser as functions over a cursor, an error list and a `hung` flag |
| `parser.dfy` | `Parser` | the class `Parser`, one method per parse routine |
| `parser_facts.dfy` | `ParserFacts` | what the statement grammar does with unexpected input |
| `precedence.dfy` | `Precedence` | precedence and left associativity: the parse round trip |
| `semantic.dfy` | `Semantic` | the symbol table walk and its diagnostics |
| `seqs.dfy` | `Seqs` | associativity of sequence concatenation, shared by the two modules below |
| `irgen.dfy` | `IrGen` | quadruples, the temporary counter, and the order of definitions |
| `decimal.dfy` | `Decimal` | decimal spelling of integers, as a C++ stream writes them |
| `dot.dfy` | `AstVisualize` | the DOT lines, node numbering and edges |

The model follows the code as written, including its odd corners. Each of these is stated and proved:

- A `/` that does not start `//` stalls the lexer. The per-line loop never advances, so the source hangs. Modelled as `Stall`, with `Lex.LoneSlashSticks` and `Lex.LexWithoutSlashFinishes`.
- A block without its `}` hangs the parser, and so does a stray token inside a block. Modelled as the `hung` flag, with `ParserFacts.BlockHangsWithoutClose` and `ParserFacts.StrayTokenHangsBlock`. The parser never starts spinning without having reported an error: `ParserFacts.BlockHangReported`.
- A missing `;` after an assignment is not reported. After a declaration it is. See `ParserFacts.AssignmentSemicolonIsSilent` and `ParserFacts.DeclarationSemicolonIsReported`.
- The class header is checked by token type only. See `ParserFacts.HeaderChecksTypesOnly`.
- Using an undeclared variable in an expression is not diagnosed. Declarations outlive their block. See `Semantic.ExpressionsAreSilent` and `Semantic.NestedDeclarationOutlivesBlock`.
- `tempVarCount` is never reset, so a second run continues the temporary numbering. See `IrGen.SecondRunShiftsTemps`. Apart from the temporary names, a run does not depend on the counter: `IrGen.RerunRenamesTemps`.
- The identifier and constant tables are not cleared between runs of the lexer; only the error list is. See `Lex.Lexer.RunLexer`.

## Model

| member | source | states |
|---|---|---|
| `Syntax.MakeNode` | src/parser.cpp:46-52 | a node of the given kind, value and line, with no declared type and no children |
| `Syntax.Binary` | src/parser.cpp:94-97 | an operator node over two well-shaped operands is well-shaped |
| `Syntax.WellShaped` | src/parser.h:9-15 | a tree of parser shape has enough children wherever the later stages index them |
| `Lex.Find` | src/lex.cpp:131-132 | the first index of the string in the table, or -1 exactly when it is absent |
| `Lex.Intern` | src/lex.cpp:131-134 | find-or-append: the index names the string; the table is unchanged if the string was there, else it grows by that string; no duplicates are introduced |
| `Lex.InternExisting` | src/lex.cpp:161-164 | a string already in a duplicate-free table gets its existing index and the table is unchanged |
| `Lex.WordEnd` | src/lex.cpp:120 | the end of the maximal run of letters, digits and `_` |
| `Lex.DigitEnd` | src/lex.cpp:150 | the end of the maximal run of digits |
| `Lex.QuoteEnd` | src/lex.cpp:176-183 | the first `"` at or after the start, or the line end |
| `Lex.ScanStep` | src/lex.cpp:112-215 | one iteration of the per-line loop either stalls or moves strictly forward within the line |
| `Lex.ReadWord` | src/lex.cpp:118-120 | the loop reads exactly the maximal identifier run and stops at its end |
| `Lex.SkipWord` | src/lex.cpp:155 | the skipping loop stops at the end of the identifier run |
| `Lex.ReadDigits` | src/lex.cpp:150 | the loop reads exactly the maximal digit run |
| `Lex.ReadString` | src/lex.cpp:171-183 | the text up to the closing quote; terminated exactly when a `"` follows; the cursor is after the quote or at the line end |
| `Lex.Lexer.constructor` | src/lex.cpp:37-44 | the global tables and the error list start empty |
| `Lex.Lexer.AddError` | src/lex.cpp:64-81 | appends one error with its type, line, column and character |
| `Lex.Lexer.ScanToken` | src/lex.cpp:113-214 | one iteration changes the tables, errors and tokens exactly as `ScanStep`, or stalls and changes nothing |
| `Lex.Lexer.RunLexer` | src/lex.cpp:101-225 | the tokens, tables and errors are `Lex` of the lines and the tables as left by earlier runs; it finishes exactly when no line stalls |
| `Lex.WordIsValidIdentifier` | src/lex.cpp:84-90 | a word the loop reads always passes `isValidIdentifier`, so the `INVALID_IDENTIFIER` branch at line 121 is dead |
| `Lex.WordStep` | src/lex.cpp:117-138 | a word becomes a keyword token with its code, or an identifier token indexing its (possibly new) table entry, at the word's column |
| `Lex.NumberStep` | src/lex.cpp:140-167 | a well-formed number is interned in the constant table and yields one integer token indexing it |
| `Lex.StringStep` | src/lex.cpp:170-193 | a terminated string's text is interned and yields one string token at the opening quote |
| `Lex.LeadingZeroStep` | src/lex.cpp:144-148 | `0` followed by digits is reported as an invalid number and no token or constant is added |
| `Lex.DigitsThenLetterStep` | src/lex.cpp:152-157 | digits followed by a letter are reported as an invalid identifier, and the whole word is skipped without a token |
| `Lex.UnterminatedStringStep` | src/lex.cpp:185-186 | a string without a closing quote is reported at its start and consumes the rest of the line |
| `Lex.SingleCharStep` | src/lex.cpp:195-214 | operators and delimiters become tokens holding their character code; `$` gives END_OF_FILE; `//` ends the line; a lone `/` stalls; anything else is an unknown-character error |
| `Lex.AllIndexTablesGrow` | src/lex.h:37-45 | token indices stay valid when the tables only grow |
| `Lex.ScanStepKeepsTables` | src/lex.cpp:126-167 | one step adds at most one token, only extends the tables and errors, and keeps the tables duplicate-free and every token index valid |
| `Lex.ScanLineKeepsTables` | src/lex.cpp:112-215 | the same holds for a whole line |
| `Lex.LexFromKeepsTables` | src/lex.cpp:109-217 | the same holds for the remaining lines |
| `Lex.LexKeepsTables` | src/lex.cpp:101-225 | after a run, the tables extend the old ones without duplicates, and every identifier or literal token indexes them |
| `Lex.ScanStepKeepsTablesShape` | src/lex.cpp:126-214 | one step only appends to the token list, at most one token |
| `Lex.ScanStepTokenAt` | src/lex.cpp:113 | a token added at index `i` carries the current line and column `i + 1` |
| `Lex.ScanLineOrdered` | src/lex.cpp:112-215 | the tokens of a line are in increasing column order, and they lie within the line |
| `Lex.LexFromOrdered` | src/lex.cpp:109-217 | tokens are in increasing (line, column) order, and each position lies within its line |
| `Lex.LexPositions` | src/lex.cpp:101-225 | all tokens of a run are ordered by position, and each position exists in the input |
| `Lex.ScanLineWithoutSlash` | src/lex.cpp:112-215 | a line without `/` never stalls |
| `Lex.LexFromWithoutSlash` | src/lex.cpp:109-217 | lines without `/` never stall |
| `Lex.LexWithoutSlashFinishes` | src/lex.cpp:101-225 | input without `/` is always lexed to the end |
| `Lex.LoneSlashSticks` | src/lex.cpp:205-209 | on `a / b` the line loop stalls at the `/` |
| `ParserSpec.Skip` | src/parser.cpp:35-43 | `match` with its result ignored moves the cursor by at most one and reports nothing |
| `ParserSpec.Expect` | src/parser.cpp:212-216 | `if (!match(..)) error(..)` moves forward, only appends errors, and leaves `hung` alone |
| `ParserSpec.Primary` | src/parser.cpp:63-87 | `parsePrimary` moves forward, only appends errors, and yields a well-shaped tree |
| `ParserSpec.MulLevel` | src/parser.cpp:89-100 | `parseMul` moves forward, only appends errors, and yields a well-shaped tree |
| `ParserSpec.MulLoop` | src/parser.cpp:91-98 | the `*` loop moves forward and builds a well-shaped tree |
| `ParserSpec.MulLoopStep` | src/parser.cpp:91-98 | at a `*`, one round joins the left tree and the next primary into a Mul node and continues |
| `ParserSpec.AddLevel` | src/parser.cpp:102-114 | `parseAdd` moves forward, only appends errors, and yields a well-shaped tree |
| `ParserSpec.AddLoop` | src/parser.cpp:104-112 | the `+`/`-` loop moves forward and builds a well-shaped tree |
| `ParserSpec.AddLoopStep` | src/parser.cpp:104-112 | at `+` or `-`, one round builds Add or Sub over the left tree and the next product |
| `ParserSpec.RelLevel` | src/parser.cpp:116-128 | `parseRelational` moves forward, only appends errors, and yields a well-shaped tree |
| `ParserSpec.RelLoop` | src/parser.cpp:118-126 | the `<`/`=` loop moves forward and builds a well-shaped tree |
| `ParserSpec.RelLoopStep` | src/parser.cpp:118-126 | at `<` or `=`, one round builds Lt or Eq over the left tree and the next sum |
| `ParserSpec.Expression` | src/parser.cpp:130-132 | `parseExpression` moves forward, reports errors only by appending, and never sets `hung` |
| `ParserSpec.DeclRest` | src/parser.cpp:145-157 | the rest of a declaration moves forward and yields a well-shaped result |
| `ParserSpec.Statement` | src/parser.cpp:134-209 | `parseStatement` moves forward, only appends errors, never clears `hung`, and yields a well-shaped tree or null |
| `ParserSpec.IfRest` | src/parser.cpp:177-186 | the rest of an `if` moves forward and yields a well-shaped tree |
| `ParserSpec.ElseKeyword` | src/parser.cpp:184 | the `else` test moves forward and appends at most an error |
| `ParserSpec.WhileRest` | src/parser.cpp:187-195 | the rest of a `while` moves forward and yields a well-shaped tree |
| `ParserSpec.AssignRest` | src/parser.cpp:198-206 | the rest of an assignment moves forward and yields a well-shaped result |
| `ParserSpec.BlockLoop` | src/parser.cpp:135-142 | the block loop yields a Block node; when an iteration consumes nothing it stops and sets `hung` |
| `ParserSpec.ExpectKeywords` | src/parser.cpp:215 | the four-keyword loop moves forward and only appends errors |
| `ParserSpec.MainHeader` | src/parser.cpp:212-222 | the class header moves forward and only appends errors |
| `ParserSpec.MainClass` | src/parser.cpp:211-231 | `parseMainClass` moves forward and yields a well-shaped tree |
| `ParserSpec.Parse` | src/parser.cpp:233-238 | `parse` always yields a Program node with exactly one child |
| `Parser.Parser.constructor` | src/parser.cpp:233-236 | installs the tokens and resets the cursor and the error list |
| `Parser.Parser.GetTokenPos` | src/parser.cpp:12-20 | the current token's line and column when it exists with a positive line, else (-1, -1) |
| `Parser.Parser.Error` | src/parser.cpp:23-27 | appends one error at the current token's position and moves nothing |
| `Parser.Parser.Peek` | src/parser.cpp:30-32 | the current token, or an END_OF_FILE sentinel with value, line and column -1 past the end |
| `Parser.Parser.Match` | src/parser.cpp:35-43 | true exactly when the current token has the type (and the value, unless -2); the cursor advances exactly then |
| `Parser.Parser.ParsePrimary` | src/parser.cpp:63-87 | computes `Primary` on the parser's state |
| `Parser.Parser.ParseMul` | src/parser.cpp:89-100 | the while loop computes `MulLevel` |
| `Parser.Parser.ParseAdd` | src/parser.cpp:102-114 | the while loop computes `AddLevel` |
| `Parser.Parser.ParseRelational` | src/parser.cpp:116-128 | the while loop computes `RelLevel` |
| `Parser.Parser.ParseExpression` | src/parser.cpp:130-132 | computes `Expression` |
| `Parser.Parser.ParseDeclRest` | src/parser.cpp:145-157 | computes `DeclRest` for `int` and for `String` |
| `Parser.Parser.ParseStatement` | src/parser.cpp:134-209 | computes `Statement`, including the unparseable-statement error and null result |
| `Parser.Parser.ParseBlockRest` | src/parser.cpp:136-141 | the block loop computes `BlockLoop`, stopping where the source would spin forever |
| `Parser.Parser.ParseIfRest` | src/parser.cpp:179-186 | computes `IfRest` |
| `Parser.Parser.ExpectElse` | src/parser.cpp:184 | computes `ElseKeyword` |
| `Parser.Parser.ParseWhileRest` | src/parser.cpp:189-194 | computes `WhileRest` |
| `Parser.Parser.ParseAssignRest` | src/parser.cpp:198-206 | computes `AssignRest` |
| `Parser.Parser.ParseMainClass` | src/parser.cpp:211-231 | computes `MainClass` |
| `Parser.Parser.ParseMainHeader` | src/parser.cpp:212-222 | the header checks, including the for loop, compute `MainHeader` |
| `Parser.Parser.ExpectToken` | src/parser.cpp:212-216 | one `if (!match(..)) error(..)` computes `Expect` |
| `Parser.Parse` | src/parser.cpp:233-238 | the tree, the errors and the hang flag are those of `ParserSpec.Parse` |
| `ParserFacts.BlockHangsWithoutClose` | src/parser.cpp:137-140 | with no `}` ahead, the block loop always ends up hung, and a loop entered running has recorded an error by then |
| `ParserFacts.StatementHangReported` | src/parser.cpp:134-208 | a statement that consumes no token, or leaves the parser hung, has appended an error: the last branch reports `UnparseableStatement` |
| `ParserFacts.IfHangReported` | src/parser.cpp:177-186 | an `if` whose branches leave the parser hung has appended an error |
| `ParserFacts.WhileHangReported` | src/parser.cpp:187-194 | a `while` whose body leaves the parser hung has appended an error |
| `ParserFacts.BlockHangReported` | src/parser.cpp:136-140 | a block loop entered running that ends hung has appended an error: the parser never starts spinning silently |
| `ParserFacts.UnparseableStatementStays` | src/parser.cpp:207-208 | a token that starts no statement is reported once, nothing is consumed, and the result is null |
| `ParserFacts.StrayTokenHangsBlock` | src/parser.cpp:137-140 | such a token inside a block is reported and the block loop hangs on it |
| `ParserFacts.PrimaryCases` | src/parser.cpp:64-76 | literal and identifier tokens become leaves with their table text and line, consuming one token |
| `ParserFacts.ParenthesisedPrimary` | src/parser.cpp:77-82 | `( e )` yields the inner expression itself, with an error only when `)` is missing |
| `ParserFacts.UnrecognizedPrimary` | src/parser.cpp:83-86 | any other token is reported, nothing is consumed, and the result is null |
| `ParserFacts.DeclarationWithoutName` | src/parser.cpp:145-148 | a type keyword without a name consumes the keyword, reports at the next token, and yields null |
| `ParserFacts.AssignmentSemicolonIsSilent` | src/parser.cpp:196-205 | an assignment gives the same node with or without `;`, adds no error of its own, and consumes the `;` exactly when present |
| `ParserFacts.AssignmentWithoutEquals` | src/parser.cpp:196-208 | an identifier not followed by `=` is consumed and reported as an unparseable statement |
| `ParserFacts.DeclarationSemicolonIsReported` | src/parser.cpp:144-158 | a declaration without an initialiser has no children, and a missing `;` is reported at the token after the name |
| `ParserFacts.ControlNodeShapes` | src/parser.cpp:175-195 | an If node always has three children, even without `else`; a While node has two; the first child is the condition |
| `ParserFacts.HeaderChecksTypesOnly` | src/parser.cpp:211-222 | any eight tokens of the right types pass the header without an error, whatever the keyword values |
| `Precedence.IsExpr` | src/parser.cpp:63-128 | the trees the expression parser builds are well-shaped |
| `Precedence.SpellEnd` | src/parser.cpp:63-128 | a spelling of a tree, if there is one, ends after its start and within the tokens |
| `Precedence.LevelUp` | src/parser.cpp:89-128 | a node not of level `lvl` is spelled the same way one level up |
| `Precedence.Parts` | src/parser.cpp:91-126 | a spelled operator node splits into its left operand, its operator token and its right operand one level up |
| `Precedence.OpLevel` | src/parser.cpp:91-118 | an operator token is read at the level of its node |
| `Precedence.PrimaryOfSpelling` | src/parser.cpp:63-87 | `parsePrimary` reads a spelled primary back and consumes exactly its tokens |
| `Precedence.PrimaryOfParens` | src/parser.cpp:77-82 | a parenthesised expression is read back through `parseExpression` and the `)` |
| `Precedence.MulOfSpelling` | src/parser.cpp:89-100 | `parseMul` reads a spelled product back, and stops before a non-`*` token |
| `Precedence.MulOfPrimary` | src/parser.cpp:90 | a primary at the multiplicative level is read by `parsePrimary` |
| `Precedence.MulOfProduct` | src/parser.cpp:91-98 | `l * r` is read as the left operand and then one loop round |
| `Precedence.AddOfSpelling` | src/parser.cpp:102-114 | `parseAdd` reads a spelled sum back, and stops before a non-additive token |
| `Precedence.AddOfMul` | src/parser.cpp:103 | a tighter-binding expression at the additive level is read by `parseMul` |
| `Precedence.AddOfSum` | src/parser.cpp:104-112 | `l + r` or `l - r` is read as the left operand and then one loop round |
| `Precedence.RelOfSpelling` | src/parser.cpp:116-128 | `parseRelational` reads a spelled comparison back, and stops before a non-operator token |
| `Precedence.RelOfAdd` | src/parser.cpp:117 | a tighter-binding expression at the relational level is read by `parseAdd` |
| `Precedence.RelOfComparison` | src/parser.cpp:118-126 | `l < r` or `l = r` is read as the left operand and then one loop round |
| `Precedence.MulLoopStops` | src/parser.cpp:91 | the `*` loop stops at a token of a lower level |
| `Precedence.AddLoopStops` | src/parser.cpp:104 | the `+`/`-` loop stops at a token of a lower level |
| `Precedence.RelLoopStops` | src/parser.cpp:118 | the comparison loop stops at a non-operator token |
| `Precedence.MulJoin` | src/parser.cpp:91-98 | reading both operands of a spelled product yields the product node |
| `Precedence.AddJoin` | src/parser.cpp:104-112 | reading both operands of a spelled sum yields the sum node |
| `Precedence.RelJoin` | src/parser.cpp:118-126 | reading both operands of a spelled comparison yields the comparison node |
| `Precedence.MulCompose` | src/parser.cpp:92-97 | one `*` round over read operands extends the left tree by a Mul node |
| `Precedence.AddCompose` | src/parser.cpp:105-111 | one `+`/`-` round over read operands extends the left tree by an Add or Sub node |
| `Precedence.RelCompose` | src/parser.cpp:119-125 | one `<`/`=` round over read operands extends the left tree by an Lt or Eq node |
| `Precedence.ExpressionOfSpelling` | src/parser.cpp:130-132 | round trip: `parseExpression` reads any spelled tree back exactly, consumes exactly its tokens and reports no error |
| `Precedence.LeafSpells` | src/parser.cpp:64-76 | a leaf is spelled by its one token at every level |
| `Precedence.BinarySpells` | src/parser.cpp:91-126 | an operator node is spelled by its left operand, its operator and its right operand one level up |
| `Precedence.SumOfProductTokens` | src/parser.cpp:104 | the tokens of `2 + 3 * 4;` index their tables, and `;` ends the expression |
| `Precedence.SumOfProductSpells` | src/parser.cpp:102-114 | `2 + 3 * 4` spells `2 + (3 * 4)` |
| `Precedence.MulBindsTighter` | src/parser.cpp:89-114 | `2 + 3 * 4;` parses as `2 + (3 * 4)` with no error |
| `Precedence.ChainedComparisonTokens` | src/parser.cpp:118 | the tokens of `1 < 2 = 0;` index their tables, and `;` ends the expression |
| `Precedence.FirstComparisonSpells` | src/parser.cpp:118-126 | `1 < 2` spells the comparison |
| `Precedence.ChainedComparisonSpells` | src/parser.cpp:116-128 | `1 < 2 = 0` spells `(1 < 2) = 0` |
| `Precedence.ComparisonsAssociateLeft` | src/parser.cpp:116-128 | `1 < 2 = 0;` parses as `(1 < 2) = 0`: comparisons associate to the left |
| `Semantic.ExprType` | src/semantic.cpp:10-23 | empty, `int`, `String` or the recorded type of a variable; empty for an undeclared variable |
| `Semantic.WellShapedIsCheckable` | src/semantic.cpp:42 | every tree the parser builds gives an Assign node a child to inspect |
| `Semantic.Check` | src/semantic.cpp:26-47 | a declaration adds or overwrites its name with its type and nothing else changes; at most one diagnostic is added |
| `Semantic.Walk` | src/semantic.cpp:25-49 | the visit only grows the symbol table and the diagnostics |
| `Semantic.WalkChildren` | src/semantic.cpp:48 | the child loop only grows the symbol table and the diagnostics |
| `Semantic.SemanticChecker.constructor` | src/semantic.cpp:7 | the symbol table starts empty, with no diagnostics |
| `Semantic.SemanticChecker.Visit` | src/semantic.cpp:25-49 | the recursive visit, with its child loop, computes `Walk` |
| `Semantic.SemanticChecker.CheckNode` | src/semantic.cpp:27-47 | the checks of one node compute `Check` |
| `Semantic.CheckSemantics` | src/semantic.cpp:6-53 | returns true whatever it finds, and the diagnostics are `Diagnostics(root)` |
| `Semantic.ExpressionsAreSilent` | src/semantic.cpp:25-49 | walking an expression changes nothing: an undeclared variable in an expression is never reported |
| `Semantic.ChildExpressionsAreSilent` | src/semantic.cpp:48 | the same for the children of an expression |
| `Semantic.DiagnosticsBound` | src/semantic.cpp:25-49 | at most one diagnostic per declaration or assignment |
| `Semantic.ChildDiagnosticsBound` | src/semantic.cpp:48 | the same bound for the child loop |
| `Semantic.AssignmentDiagnostics` | src/semantic.cpp:37-47 | an assignment to an undeclared name is reported as undefined; otherwise a mismatch is reported exactly when the value's type is known and differs |
| `Semantic.DeclarationDiagnostics` | src/semantic.cpp:27-35 | a declaration records its type first, then reports a mismatch exactly when the initialiser's type is known and differs |
| `Semantic.WalkOne` | src/semantic.cpp:26-48 | a node with one child is checked and then its child is visited |
| `Semantic.WalkPair` | src/semantic.cpp:48 | a block of two statements visits them in order |
| `Semantic.UseBeforeDeclaration` | src/semantic.cpp:37-39 | an assignment before its declaration is reported as undefined, and the later declaration is silent |
| `Semantic.InnerBlockDeclares` | src/semantic.cpp:27-28 | a declaration inside a block enters the one symbol table |
| `Semantic.NestedDeclarationOutlivesBlock` | src/semantic.cpp:7 | a name declared in an inner block is still known after it: there is no scoping |
| `IrGen.TempName` | src/irgen.cpp:7-11 | `t` followed by the counter's decimal digits |
| `IrGen.TempNameInjective` | src/irgen.cpp:7-11 | distinct counter values give distinct temporary names |
| `IrGen.GenNode` | src/irgen.cpp:16-42 | `gen` only appends quadruples and only increases the counter |
| `IrGen.GenOperator` | src/irgen.cpp:19-25 | an operator node takes at least one temporary |
| `IrGen.GenCopy` | src/irgen.cpp:26-39 | an assignment or initialised declaration only appends and takes no temporary of its own |
| `IrGen.GenChildren` | src/irgen.cpp:40 | the child loop only appends and only increases the counter |
| `IrGen.IrGenerator.constructor` | src/irgen.cpp:5 | the counter starts at 0 |
| `IrGen.IrGenerator.NewTemp` | src/irgen.cpp:7-11 | returns the name of the counter's old value and increments the counter |
| `IrGen.IrGenerator.Gen` | src/irgen.cpp:16-42 | computes `GenNode`: the quadruples, the counter and the returned name |
| `IrGen.IrGenerator.EmitOperator` | src/irgen.cpp:19-25 | left operand, right operand, new temporary, one quadruple: computes `GenOperator` |
| `IrGen.IrGenerator.EmitCopy` | src/irgen.cpp:26-39 | the operand and then one `=` quadruple: computes `GenCopy` |
| `IrGen.IrGenerator.WalkChildren` | src/irgen.cpp:40 | the child loop computes `GenChildren` |
| `IrGen.IrGenerator.GenerateIR` | src/irgen.cpp:13-46 | a fresh quadruple list, and a counter carried over from earlier calls, as `Generate` says |
| `IrGen.TempRange` | src/irgen.cpp:7-11 | the run of `n` consecutive temporary names has length `n` |
| `IrGen.TempRangeDistinct` | src/irgen.cpp:7-11 | the names of one run are pairwise distinct |
| `IrGen.BinaryCount` | src/irgen.cpp:19-25 | an operator node takes one temporary and one quadruple beyond its operands |
| `IrGen.CopyCount` | src/irgen.cpp:26-39 | a copy node adds one quadruple and no temporary |
| `IrGen.QuietCount` | src/irgen.cpp:17-18 | null, leaves and uninitialised declarations emit nothing |
| `IrGen.InnerCount` | src/irgen.cpp:40 | any other node emits just what its children emit |
| `IrGen.GenCounts` | src/irgen.cpp:16-42 | `gen` takes exactly `Count(t, Temps)` temporaries, in counter order, and emits `Count(t, Quads)` quadruples |
| `IrGen.OperatorCounts` | src/irgen.cpp:19-25 | the same count for an operator node |
| `IrGen.CopyCounts` | src/irgen.cpp:26-39 | the same count for a copy node |
| `IrGen.ChildrenCounts` | src/irgen.cpp:40 | the same count for the child loop |
| `IrGen.GenUsesOnlyAvailable` | src/irgen.cpp:16-42 | every argument of an emitted quadruple is empty, a leaf text of the tree, or the result of an earlier quadruple; so is the returned name |
| `IrGen.OperatorUsesOnlyAvailable` | src/irgen.cpp:19-25 | the same for an operator node |
| `IrGen.CopyUsesOnlyAvailable` | src/irgen.cpp:26-39 | the same for a copy node |
| `IrGen.ChildrenUseOnlyAvailable` | src/irgen.cpp:40 | the same for the child loop |
| `IrGen.ArgumentsDefinedBeforeUse` | src/irgen.cpp:13-46 | no quadruple reads a temporary before one defines it |
| `IrGen.TookFromStart` | src/irgen.cpp:14 | from an empty list, the temporaries defined are exactly a consecutive run from the counter |
| `IrGen.SecondRunShiftsTemps` | src/irgen.cpp:5 | a second `generateIR` numbers its temporaries on from where the first stopped |
| `IrGen.RerunRenamesTemps` | src/irgen.cpp:5-14 | `generateIR` on the same tree from two counter values gives as many quadruples, the same operators, and every argument and result either the same text or `t<c+k>` against `t<c'+k>`; both counters advance by the same amount |
| `IrGen.GenShifted` | src/irgen.cpp:16-42 | `gen` on the same node from two counters in step appends corresponding quadruples and returns corresponding names |
| `IrGen.OperatorShifted` | src/irgen.cpp:19-25 | the same for an operator node, whose result temporaries are the same distance past the two starts |
| `IrGen.CopyShifted` | src/irgen.cpp:26-39 | the same for an assignment or initialised declaration |
| `IrGen.ChildrenShifted` | src/irgen.cpp:40 | the same for the child loop |
| `IrGen.ProductExample` | src/irgen.cpp:19-25 | `2 * 3` gives `Mul 2 3 t0` and yields `t0` |
| `IrGen.SumExample` | src/irgen.cpp:19-25 | `1 + 2 * 3` gives `t0 = 2 * 3` and then `t1 = 1 + t0` |
| `IrGen.AssignmentExample` | src/irgen.cpp:26-30 | `x = 1 + 2 * 3` ends with the copy `= t1 x` |
| `Decimal.NatToString` | src/irgen.cpp:9 | non-empty, all decimal digits, one digit exactly below 10 |
| `Decimal.DigitsRoundTrip` | src/irgen.cpp:9 | reading the digits back gives the number |
| `Decimal.NatToStringInjective` | src/irgen.cpp:9 | distinct numbers have distinct digit strings |
| `Decimal.IntText` | src/ast_visualize.cpp:13 | non-empty, with a leading minus exactly for negative numbers |
| `Decimal.IntTextInjective` | src/ast_visualize.cpp:13 | distinct numbers are written differently |
| `AstVisualize.Texts` | src/ast_visualize.cpp:13-15 | one text line per DOT line |
| `AstVisualize.TextsLineByLine` | src/ast_visualize.cpp:13-15 | each text line is the text of the DOT line at the same place |
| `AstVisualize.WriteNode` | src/ast_visualize.cpp:7-20 | `writeDotNode` only appends lines and only increases the counter |
| `AstVisualize.Head` | src/ast_visualize.cpp:9-16 | a node's own lines take exactly one counter value |
| `AstVisualize.WriteChildren` | src/ast_visualize.cpp:17-19 | the child loop only appends lines and only increases the counter |
| `AstVisualize.DotWriter.constructor` | src/ast_visualize.cpp:5 | the counter starts at 0 with nothing written |
| `AstVisualize.DotWriter.Emit` | src/ast_visualize.cpp:13 | writes one line's text to the stream |
| `AstVisualize.DotWriter.WriteDotNode` | src/ast_visualize.cpp:7-20 | computes `WriteNode` on the counter and the lines written |
| `AstVisualize.DotWriter.WriteHead` | src/ast_visualize.cpp:9-16 | takes the counter's value as the node's id and writes the node line and the parent edge |
| `AstVisualize.DotWriter.ExportASTtoDot` | src/ast_visualize.cpp:22-30 | the file is the header, the node lines and the closing brace; the counter ends at the number of nodes |
| `AstVisualize.Range` | src/ast_visualize.cpp:9 | consecutive ids from `from` |
| `AstVisualize.NumberedHead` | src/ast_visualize.cpp:9-16 | a node's own line has the next id, and it gets an edge unless it is the root |
| `AstVisualize.WriteNodeNumbers` | src/ast_visualize.cpp:7-20 | the nodes are written in preorder with ids from the counter on, every node except the root is the target of exactly one edge, and the edges are exactly the parent/child pairs of `TreeEdges`: each from the id of the node's parent |
| `AstVisualize.WriteChildrenNumbers` | src/ast_visualize.cpp:17-19 | the same for the child loop, every child's edge coming from the node's id |
| `AstVisualize.ExportedFile` | src/ast_visualize.cpp:22-30 | the file opens with the two header lines and closes with `}`; node ids are 0 to n-1 in preorder; edges point at 1 to n-1; the (from, to) pairs of the edge lines are `TreeEdges(root, -1, 0)`, each node's edge coming from its parent's preorder id |
| `AstVisualize.ChildEdge` | src/ast_visualize.cpp:14-18 | every non-null child of a node has an edge from the node's id to the id after the node and all nodes of the child's earlier siblings |
| `AstVisualize.ChildEdgeAmong` | src/ast_visualize.cpp:17-19 | the same within the first `n` rounds of the child loop |
| `AstVisualize.HeaderHasNoNodes` | src/ast_visualize.cpp:24-25 | the header lines carry no node and no edge |
| `AstVisualize.EdgesPointForward` | src/ast_visualize.cpp:14-17 | every edge goes from an earlier id to a later id |
| `AstVisualize.ChildrenPointForward` | src/ast_visualize.cpp:17-19 | the same for the child loop |
| `AstVisualize.KindNamePlain` | src/ast_visualize.cpp:11 | node type names contain no backslash |
| `AstVisualize.KindNameInjective` | src/ast_visualize.cpp:10 | distinct node types have distinct names |
| `AstVisualize.ShorterNameDiffers` | src/ast_visualize.cpp:10-12 | labels of types with names of different length differ |
| `AstVisualize.LabelDeterminesNode` | src/ast_visualize.cpp:10-12 | a label determines the node's type and value |
| `AstVisualize.AssignmentLines` | src/ast_visualize.cpp:7-28 | `x = 1` becomes two node lines and one edge |
| `AstVisualize.RootLineText` | src/ast_visualize.cpp:13 | the text of the root's line |
| `AstVisualize.LeafLineText` | src/ast_visualize.cpp:13 | the text of a leaf's line |
| `AstVisualize.EdgeLineText` | src/ast_visualize.cpp:15 | the text of an edge line |
| `AstVisualize.AssignmentFile` | src/ast_visualize.cpp:22-30 | the complete file written for `x = 1` |

## Left out

- File and stream I/O: the lexer takes the input as a sequence of lines, the DOT writer appends its lines to a sequence of strings, and `printErrors`, `printParseErrors` and the `std::cerr` diagnostics of the semantic checker become lists of values.
- Message texts: every lexer, parser and semantic error is a tag (`LexErrorType`, `SyntaxError`, `Diagnostic`); the text each tag stands for is fixed.
- `<cctype>` locale: `isspace`, `isalpha`, `isdigit` and `isalnum` are modelled with the "C" locale on ASCII.
- The `'\0'` read by `isdigit(line[i])` at src/lex.cpp:150 when the digits run to the end of the line is modelled as the bound `i < |line|`.
- Non-termination: a lexer line that loops forever is `Stall`/`stuck`, and a parser block loop that iterates without consuming is the `hung` flag. Each model stops where the source would spin.
- `Parser.Parse` requires every identifier and literal token to index its table, as the lexer's output does (`Lex.LexKeepsTables`). The C++ reads out of bounds otherwise.
- `Semantic.CheckSemantics` and `Semantic.SemanticChecker.Visit` require an Assign node to have a child, as every parsed tree does (`Semantic.WellShapedIsCheckable`). The C++ reads out of bounds otherwise.
- `IrGen.IrGenerator.Gen` requires an operator node to have two children and an Assign node one, as every parsed tree does. The C++ reads out of bounds otherwise.
- `IrGen.IrGenerator.NewTemp`: the counter is unbounded; the 32-bit overflow of `tempVarCount` is not modelled.
- `AstVisualize.DotWriter.WriteDotNode`: the counter is unbounded; the 32-bit overflow of `nodeCounter` is not modelled.
- Temporary names `t0`, `t1`, ... may coincide with user variables of the same name. The model keeps the clash and states nothing about it.
- DOT labels are written without escaping a `"` or a `\` inside a value, as the source does. Only node type names are shown to be plain (`AstVisualize.KindNamePlain`).
- `AstVisualize.DotWriter` keeps a ghost list of the DOT lines beside the written text, to state what the text says.
- `shared_ptr` sharing: trees are values, so aliasing between subtrees is not modelled. The parser never shares a node.
- src/main.cpp, which drives the stages and opens the files, is not part of this model.
