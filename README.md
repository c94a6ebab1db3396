# Monkey interpreter core in Dafny

This project models the interpreter for the Monkey language written in
TypeScript. It covers the token catalogues, the lexer, the syntax tree and
its printer, the Pratt parser, the runtime objects with their environment,
and the tree-walking evaluator. It then proves properties of that model.

- **Tokens.** `Tokens` (token.ts) and `LexTokens` (token/token.ts) are the
  two copies of the token catalogue. The parser reads the first and the
  lexer builds the second. Both spell every kind the same way and answer
  every keyword lookup the same way.
- **Lexer.** `Lexer` is a class with the source's cursor fields:
  `position`, `readPosition` and `ch`. Its `NextToken` is proved equal to
  a pure function, `Scan`, of the cursor position. The lemmas about `Scan`
  state what the lexer promises:
  - one-character lookahead for `==` and `!=`;
  - maximal runs for names and numbers;
  - ILLEGAL tokens for unknown characters;
  - EOF for ever once the input is used up;
  - the `isLetter` quirk: every code at or above `_`, `}` included, is a letter.
- **Syntax tree.** In `Ast`, a field that is nullable in the source is an
  `Option`. An absent child renders as `undefined`, as `?.` concatenated to
  a string does. The printer adds parentheses to every compound expression.
  The lemmas prove that those parentheses always balance.
- **Parser.** `ParserSpec` describes the Pratt parser as functions over the
  stream of tokens the lexer hands out. `PState` holds the position and the
  error list.
  - The parser's two aborts become `Failure`: `nextToken` at EOF calls
    `process.exit(1)`, and a null left operand throws.
  - `Parsing.Parser` is the class, with the source's fields: the lexer,
    `curToken`, `peekToken` and `errors`.
  - Each parser method is proved to agree with its specification function.
  - `ParseSource` runs a real `Lexer` under a real `Parser`.
  - The lemmas in `ParserFacts` prove the precedence ladder, left
    associativity, that tighter operators group to the right, and that
    prefix operators bind tightest. They also cover the error paths.
- **Objects.** `Objects` holds the runtime values of objects.ts and the
  `Environment` class of env.ts. The two files import each other, so they
  share one module.
- **Evaluator.** `Evaluator` states `Eval` as recursive functions.
  `EvalProgram` and `EvalBlockStatement` are the source's `for` loops,
  proved equal to those functions. `EvaluatorFacts` proves these against
  independent definitions:
  - the operator tables;
  - truthiness;
  - floored division;
  - how `return` travels up through blocks and is unwrapped once at the
    program.
- **Pipeline.** `Interpreter.TestEval` is the pipeline of the evaluator
  tests: lexer, parser and `Eval`. `IntegerPrograms` proves that the texts
  "5" and "10" have the values 5 and 10.

In four places this code differs from the usual Monkey interpreter; the
model follows the code:
- `Eval` has no environment. Identifiers, `let`, function literals and
  calls evaluate to NULL.
- No `Err` value is ever produced by the evaluator.
- Integer `/` is floored by the `Integer` constructor (objects.ts:22). It
  is not plain numeric division.
- `parseFunctionLiteral` never sets the literal's token
  (parser.ts:192-206). A parsed function literal therefore renders without
  its `fn` prefix, and its `tokenLiteral()` is "" (`ParserFacts.ParsedTokenLiteral`).

## Model

| member | source | states |
|---|---|---|
| Tokens.NewToken | token.ts:41-44 | a new token has an empty type and literal, and that type is none of the kind constants |
| Tokens.Keywords | token.ts:47-55 | the keyword table holds exactly the seven spellings, each mapped to its own keyword kind |
| Tokens.LookupIdent | token.ts:46-63 | a word gets a kind other than IDENT exactly when it is one of the seven keyword spellings, and then that keyword's kind; the answer is never an operator or punctuation kind |
| Tokens.KindsDistinct | token.ts:7-39 | the 27 kind constants are pairwise distinct |
| Tokens.CaseMatters | token.ts:46-63 | keywords spelled with different case are identifiers; `let` is LET |
| LexTokens.Token.LookupIdent | token/token.ts:58-64 | the per-token lookup gives a keyword kind exactly for the seven spellings, and that keyword's kind |
| LexTokens.NewToken | token/token.ts:43-56 | a new token has an empty type and literal, and its table holds exactly the seven keywords |
| LexTokens.LookupIgnoresReceiver | token/token.ts:58-64 | which token answers `lookupIdent` makes no difference |
| LexTokens.KindsAgree | token/token.ts:9-41 | the lexer's catalogue spells all 27 kinds exactly as the parser's does |
| LexTokens.LookupsAgree | token/token.ts:58-64 | the lexer's keyword lookup and the parser's agree on every word |
| Numbers.NatToString | ast.ts:140-142 | the decimal rendering of a whole number is canonical, with no superfluous leading zero |
| Numbers.IntToString | objects.ts:24 | an integer renders non-empty, with a leading `-` exactly when it is negative |
| Numbers.ReadRendered | parser.ts:125-141 | reading back the rendering of a number gives the number |
| Numbers.RenderRead | parser.ts:125-141 | rendering the value of a canonical digit string gives the string back |
| Numbers.PositiveValue | parser.ts:125-141 | a canonical digit string that does not start with 0 has a positive value |
| Lexer.Slice | lexer/lexer.ts:156 | `slice` within bounds is the subsequence |
| Lexer.IsDigit | lexer/lexer.ts:12-14 | a digit is never a letter, whitespace or NUL |
| Lexer.IsLetter | lexer/lexer.ts:16-20 | a letter is never whitespace or NUL, and all four of the characters `{`, `}`, `~` and the vertical bar count as letters |
| Lexer.IsWhitespace | lexer/lexer.ts:169-173 | the four whitespace characters are below the space character's code or equal to it, and none is NUL |
| Lexer.SingleKind | lexer/lexer.ts:53-104 | a character forming a token on its own is never a digit, whitespace, NUL, `=` or `!`; among them only `{` and `}` are letters, which is why their cases come before the letter test; its kind is never ILLEGAL, EOF, IDENT or INT |
| Lexer.WhitespaceEnd | lexer/lexer.ts:169-173 | whitespace skipping stops at a non-whitespace character and never moves back |
| Lexer.IdentEnd | lexer/lexer.ts:159-167 | the name scan stops at a non-letter and never moves back |
| Lexer.NumberEnd | lexer/lexer.ts:149-157 | the number scan stops at a non-digit and never moves back |
| Lexer.Scan | lexer/lexer.ts:37-128 | every call moves the cursor forward |
| Lexer.Tokenize | lexer/lexer.ts:37-128 | the token list up to the first EOF is never empty |
| Lexer.WhitespaceRun | lexer/lexer.ts:169-173 | every character skipped is whitespace |
| Lexer.IdentRun | lexer/lexer.ts:159-167 | every character of a name is a letter |
| Lexer.NumberRun | lexer/lexer.ts:149-157 | every character of a number is a digit |
| Lexer.ScanShape | lexer/lexer.ts:37-128 | a token is EOF exactly when NUL is read after the whitespace, and then its literal is empty; any other token's literal is exactly the input it spans |
| Lexer.TokenizeEndsAtEof | lexer/lexer.ts:105-108 | the token list ends with its one and only EOF |
| Lexer.PositionAfter | lexer/lexer.ts:37-128 | repeated calls never move the cursor back |
| Lexer.EofPastEnd | lexer/lexer.ts:105-108 | past the end of the input a call returns EOF with an empty literal and moves one further |
| Lexer.NulOnlyPastEnd | lexer/lexer.ts:138-147 | on an input without NUL, NUL is read only past its end |
| Lexer.EofIsStable | lexer/lexer.ts:105-108 | once EOF is returned on an input without NUL, every later call returns EOF |
| Lexer.OneCharacterLookahead | lexer/lexer.ts:43-68 | `==` and `!=` are read as one token when the second character follows at once, and `=` and `!` alone otherwise |
| Lexer.NoWhitespaceInLiterals | lexer/lexer.ts:40 | no token literal contains whitespace |
| Lexer.IdentifierIsMaximalRun | lexer/lexer.ts:110-114 | a token starting with a letter is the longest run of letters there, holds no digit, and is classified by the keyword lookup |
| Lexer.NumberIsMaximalRun | lexer/lexer.ts:115-119 | a token starting with a digit is the longest run of digits there, of kind INT |
| Lexer.IllegalCharacter | lexer/lexer.ts:122 | any other character is one ILLEGAL token holding just that character |
| Lexer.BraceJoinsIdentifier | lexer/lexer.ts:16-20 | because `}` counts as a letter, `x}` is one identifier |
| Lexer.PunctuationSample | tests/lexer.test.ts:7-28 | `=+(){},;` lexes to the nine expected tokens |
| Lexer.Lexer.constructor | lexer/lexer.ts:28-35 | the cursor starts at position 0 with the first character read |
| Lexer.Lexer.ReadChar | lexer/lexer.ts:138-147 | the cursor moves one character on, and reads NUL past the end |
| Lexer.Lexer.PeekChar | lexer/lexer.ts:130-136 | returns the character after the cursor without moving it |
| Lexer.Lexer.SkipWhitespace | lexer/lexer.ts:169-173 | the loop leaves the cursor where `WhitespaceEnd` says |
| Lexer.Lexer.ReadNumber | lexer/lexer.ts:149-157 | the loop stops where `NumberEnd` says and returns the slice it passed |
| Lexer.Lexer.ReadIdent | lexer/lexer.ts:159-167 | the loop stops where `IdentEnd` says and returns the slice it passed |
| Lexer.Lexer.NextToken | lexer/lexer.ts:37-128 | the token returned and the new cursor are exactly `Scan` of the old cursor |
| TokenStream.Convert | parser.ts:72-73 | a lexer token is read by the parser with the same type and literal |
| TokenStream.Stream | lexer/lexer.ts:37-128 | the tokens of successive `nextToken` calls while the cursor is inside the input; no input gives no tokens, and every call consumes a character, so there are never more tokens than characters left |
| TokenStream.PositionAfterStep | lexer/lexer.ts:37-128 | one more call moves the cursor by one more scan |
| TokenStream.StreamAt | lexer/lexer.ts:37-128 | the k-th call returns the k-th token of the stream, and EOF past its end |
| TokenStream.ScanInteger | lexer/lexer.ts:115-119 | a token of kind INT always holds a non-empty run of digits, since only the digit branch yields that kind |
| TokenStream.StreamIntegers | lexer/lexer.ts:115-119 | every INT token of the stream holds a non-empty run of digits |
| TokenStream.IntegerLiteralsParse | parser.ts:125-141 | on the lexer's stream an INT token always parses to its integer value, with no error and no move: the `isNaN` path is never taken |
| Ast.ExprTokenLiteral | ast.ts:42-289 | an expression answers the literal of its own token |
| Ast.ProgramTokenLiteral | ast.ts:25-29 | an empty program answers ""; otherwise the first statement's token literal |
| Ast.StmtTokenLiteral | ast.ts:61-103 | a statement answers its own token's literal, which a let or return line prints first, followed by a space |
| Ast.ExprString | ast.ts:132-289 | an identifier renders as its name, an integer as canonical digits |
| Ast.Parenthesised | ast.ts:132-289 | prefix and infix expressions render wrapped in parentheses; a call renders ending with `)` |
| Ast.StmtString | ast.ts:55-111 | a let or return statement starts with its token literal and a space and ends with `;`; an expression statement is its expression's rendering alone |
| Ast.StatementsString | ast.ts:31-39 | no statements render as "", and the first statement's rendering starts the text |
| Ast.BlockString | ast.ts:121-129 | a block renders as its statements alone, with no braces: empty gives "", one statement gives that statement |
| Ast.ProgramString | ast.ts:31-39 | an empty program renders as "", and a one-statement program as that statement |
| Ast.OptExprString | ast.ts:154-222 | an absent child prints as `undefined`, the text JavaScript makes of `?.asString()` on null; a present one prints as itself |
| Ast.OptBlockString | ast.ts:212-245 | an absent block prints as `undefined`; a present one as the block's text |
| Ast.ParamsString | ast.ts:243 | no parameters give ""; otherwise the text starts with the first name |
| Ast.ArgString | ast.ts:264-266 | a null argument prints as "", as `join` writes it; a present one as itself |
| Ast.ArgsString | ast.ts:260-272 | no arguments give ""; otherwise the text starts with the first argument's |
| Ast.ParamsJoin | ast.ts:243 | one name alone prints as itself, and each further name comes after a `, ` separator |
| Ast.ArgsJoin | ast.ts:264-270 | one argument alone prints as itself, and each further argument comes after a `, ` separator |
| Ast.StatementsAppend | ast.ts:31-39 | a statement list renders as the concatenation of its parts, the same in a block and in a program |
| Ast.ProgramTokenLiteralOfAppend | ast.ts:25-29 | an empty program has an empty token literal; otherwise the first statement decides it |
| Ast.IntegerLiteralReadsBack | ast.ts:140-142 | an integer literal renders canonically, and reading the rendering gives back its value |
| Ast.OneLetProgram | tests/ast.test.ts:6-28 | the test's let program renders as `let myVar = anotherVar;` |
| Ast.BalanceAppend | ast.ts:154-186 | parenthesis balance adds up under concatenation |
| Ast.FixedPieces | ast.ts:154-186 | the fixed pieces the printer writes have the balance they should |
| Ast.PlainIsBalanced | ast.ts:50-52 | text without parentheses is balanced |
| Ast.LetLineBalanced | ast.ts:64-75 | a let line balances when its name, value and token do |
| Ast.ReturnLineBalanced | ast.ts:85-94 | a return line balances when its value and token do |
| Ast.ExprBalanced | ast.ts:154-275 | every expression renders with balanced parentheses, as long as the names and operators it copies hold none |
| Ast.OptExprBalanced | ast.ts:159 | an absent or present child expression renders balanced |
| Ast.OptBlockBalanced | ast.ts:218-222 | an absent or present block renders balanced |
| Ast.ParamsBalanced | ast.ts:243 | a parameter list renders balanced |
| Ast.ArgsBalanced | ast.ts:260-275 | an argument list renders balanced |
| Ast.ArgBalanced | ast.ts:265 | a single argument renders balanced |
| Ast.StmtBalanced | ast.ts:64-111 | every statement renders balanced |
| Ast.StatementsBalanced | ast.ts:121-129 | a sequence of statements renders balanced |
| Ast.BlockBalanced | ast.ts:121-129 | a block renders balanced |
| Ast.ProgramBalanced | ast.ts:31-39 | a program renders balanced |
| ParserSpec.NextToken | parser.ts:64-74 | advancing fails exactly when the current token is EOF; otherwise the position moves by one, the errors are unchanged and the old peek token becomes current |
| ParserSpec.ExpectPeek | parser.ts:84-112 | on a match, the parser advances; otherwise the error `Expected '<t>' got <kind>` is appended and nothing moves; it aborts only when it matches while the current token is EOF |
| ParserSpec.PeekErrorMessage | parser.ts:110-112 | the message is 16 characters longer than the two kinds it names |
| ParserSpec.NoPrefixMessage | parser.ts:437 | the message is 35 characters longer than the kind it names |
| ParserSpec.InvalidIntegerMessage | parser.ts:130-131 | the message is 34 characters longer than the literal it quotes |
| ParserSpec.ParseIntegerLiteral | parser.ts:125-141 | a digit literal gives an integer node with the current token and the literal's value, and changes nothing; any other literal gives null and appends exactly the `Invalid literal` message |
| ParserSpec.PrecedenceOf | parser.ts:94-108 | a kind in the table binds above LOWEST, and every other kind is LOWEST |
| ParserSpec.NumberOf | parser.ts:125-141 | a literal has a value exactly when it is a string of digits; the empty literal reads as 0 |
| ParserSpec.SkipSemicolon | parser.ts:397-399 | a peeked `;` is consumed, moving exactly one token on; without one nothing moves; no error is added either way |
| ParserSpec.ParseParams | parser.ts:155-190 | a parameter list always consumes at least the `(` |
| ParserSpec.ParamsLoop | parser.ts:168-177 | the loop keeps the names it had in front, and stops only when no `,` follows |
| ParserSpec.ParseBlock | parser.ts:456-475 | a block consumes at least its `{`, keeps the `{` token, and stops on `}` or EOF |
| ParserSpec.BlockLoop | parser.ts:464-472 | the loop keeps the block token and the statements it had in front, and ends on `}` or EOF |
| ParserSpec.ParseExpression | parser.ts:433-454 | parsing an expression never moves back and never drops an error |
| ParserSpec.ParsePrefix | parser.ts:335-343 | the rule registered for the current kind never moves back; identifiers, integers and booleans consume nothing |
| ParserSpec.ParsePrefixExpression | parser.ts:208-221 | always gives a prefix node and moves past the operator |
| ParserSpec.ParseGrouped | parser.ts:240-252 | moves past the `(`; a non-null group stops on its `)` |
| ParserSpec.ParseIf | parser.ts:254-280 | a non-null result is an if-expression, and it stops on the `}` or EOF that ends its last block |
| ParserSpec.IfCondition | parser.ts:262-274 | a non-null result has a consequence and stops on the end of a block |
| ParserSpec.IfAlternative | parser.ts:274-279 | keeps the condition and consequence; without `else` it changes nothing and has no alternative |
| ParserSpec.ParseFunctionLiteral | parser.ts:192-206 | a non-null result is a function literal with the empty token of `new Token()`, stopping on the end of its body |
| ParserSpec.ExprLoop | parser.ts:443-453 | the loop stops only when the peek token is `;` or binds no tighter than the precedence; a non-null left operand stays non-null |
| ParserSpec.ParseInfix | parser.ts:223-238 | on `(` a call on the left operand, otherwise a binary node on the left operand with the token's literal as operator; it always moves on |
| ParserSpec.ParseCallArgs | parser.ts:295-318 | moves past the `(`; non-null arguments stop on their `)` |
| ParserSpec.ArgsLoop | parser.ts:306-311 | the loop keeps the arguments it had in front, and stops only when no `,` follows |
| ParserSpec.ParseStatement | parser.ts:368-377 | a let statement comes exactly from LET and a return statement exactly from RETURN; only a let can be null |
| ParserSpec.ParseLet | parser.ts:379-402 | a non-null result is a let statement with a name and the `let` token, after at least `let`, the name and `=` |
| ParserSpec.ParseReturn | parser.ts:404-418 | always gives a return statement with the `return` token, and moves on |
| ParserSpec.ParseExpressionStatement | parser.ts:420-431 | always gives an expression statement with the current token |
| ParserSpec.ProgramLoop | parser.ts:355-363 | the statement loop ends only on the EOF token, and the statements collected before stay in front |
| ParserSpec.ParseProgram | parser.ts:332-366 | a parse that completes stops on EOF, never moving back or dropping errors |
| ParserFacts.PrecedenceTable | parser.ts:18-28 | a kind binds tighter than LOWEST exactly when it has an infix rule, so the loop's missing-infix exit cannot happen |
| ParserFacts.PrecedenceLadder | parser.ts:8-28 | EQUALS < LESSGREATER < SUM < PRODUCT < PREFIX < CALL for the operator kinds; `;`, `)` and EOF are LOWEST |
| ParserFacts.BinaryBelowPrefix | parser.ts:18-28 | every binary operator binds above LOWEST and below PREFIX |
| ParserFacts.NoPrefixRule | parser.ts:433-439 | a kind without a prefix rule gives null and appends `No prefix parse function found for <kind>` |
| ParserFacts.IdentifierOperand | parser.ts:441-453 | an identifier before a non-binding token parses to just that identifier |
| ParserFacts.InfixTurn | parser.ts:223-238 | one turn of the loop over `op y` builds the infix node and moves three tokens |
| ParserFacts.LoopStops | parser.ts:443 | the loop stops when the peek token is `;` or binds no tighter |
| ParserFacts.LeftAssociative | parser.ts:433-454 | for identifier operands, `x o1 y o2 z` parses as `((x o1 y) o2 z)` when `o2` binds no tighter than `o1` |
| ParserFacts.TighterGroupsRight | parser.ts:433-454 | for identifier operands, `x o1 y o2 z` parses as `(x o1 (y o2 z))` when `o2` binds tighter |
| ParserFacts.PrefixBindsTighter | parser.ts:208-221 | for identifier operands, `op x o y` parses as `((op x) o y)` |
| ParserFacts.GroupingRenders | ast.ts:154-186 | the trees of those two groupings, built by hand, render as `((a + b) + c)` and `((-a) * b)` |
| ParserFacts.GroupWithoutClose | parser.ts:240-252 | a group whose `)` is missing is null, with the peek error recorded |
| ParserFacts.LetWithoutName | parser.ts:379-384 | `let` without a name gives no statement and one error |
| ParserFacts.LetWithoutAssign | parser.ts:386-391 | `let x` without `=` gives no statement and one error |
| ParserFacts.NullLeftAborts | parser.ts:448 | `if + 1` throws on the null left operand |
| ParserFacts.UnclosedBlockAborts | parser.ts:456-475 | a block left open at the end makes the program loop advance past EOF |
| ParserFacts.LetProgram | tests/parser.test.ts:36-45 | `let x = 5;` parses to one let statement without errors |
| ParserFacts.PrefixPrograms | tests/parser.test.ts:161-175 | `!5` and `-15` parse to one prefix expression statement each |
| ParserFacts.EmptyBlock | parser.ts:456-475 | `{` followed by `}` is the empty block, and the parse stops on the `}` |
| ParserFacts.LetSemicolonOptional | parser.ts:397-399 | `let x = 5` and `let x = 5;` parse to the same program, both without errors |
| ParserFacts.CallWithoutClose | parser.ts:313-315 | a call whose `)` is missing has null arguments, with the peek error recorded |
| ParserFacts.ProgramLoopAppends | parser.ts:355-363 | the statements already collected stay in front in order, so the loop keeps each non-null statement in source order |
| ParserFacts.BlockLoopAppends | parser.ts:464-472 | the same for the statements of a block |
| ParserFacts.NullStatementDropped | parser.ts:358-360 | a statement rule that gives null adds nothing to the program |
| ParserFacts.MessageShapes | parser.ts:110-112 | each error message is its fixed words around the kinds or the literal it names (also the messages at parser.ts lines 131 and 437) |
| ParserFacts.MessagesDistinct | parser.ts:110-112 | a peek error, a missing prefix rule and an invalid integer never give the same message (with the messages at parser.ts lines 131 and 437) |
| ParserFacts.ParsedTokenLiteral | ast.ts:137-289 | the node a prefix rule builds for an identifier, integer, boolean, `!` or `-` answers the literal of the token it was parsed from; a parsed function literal answers "", because parser.ts never sets its token |
| ParserFacts.StatementTokenLiteral | parser.ts:368-431 | every statement the parser builds answers the literal of the token it starts at |
| Parsing.Parser.constructor | parser.ts:41-51 | two lexer calls fill the current and peek tokens; there are no errors yet |
| Parsing.Parser.Shift | parser.ts:64-74 | advancing when the current token is known not to be EOF |
| Parsing.Parser.NextToken | parser.ts:64-74 | the method agrees with `ParserSpec.NextToken`, the EOF abort included |
| Parsing.Parser.PeekError | parser.ts:110-112 | appends exactly the peek error message |
| Parsing.Parser.ExpectPeek | parser.ts:84-92 | agrees with `ParserSpec.ExpectPeek` |
| Parsing.Parser.Expect | parser.ts:84-92 | agrees with `ParserSpec.Expect`, used where the current token is not EOF |
| Parsing.Parser.ParseIntegerLiteral | parser.ts:125-141 | agrees with `ParserSpec.ParseIntegerLiteral` |
| Parsing.Parser.ParseFunctionParams | parser.ts:155-190 | the loop agrees with `ParserSpec.ParseParams` |
| Parsing.Parser.ParsePrefix | parser.ts:335-343 | the prefix dispatch agrees with `ParserSpec.ParsePrefix` |
| Parsing.Parser.ParseFunctionLiteral | parser.ts:192-206 | agrees with `ParserSpec.ParseFunctionLiteral` |
| Parsing.Parser.ParsePrefixExpression | parser.ts:208-221 | agrees with `ParserSpec.ParsePrefixExpression` |
| Parsing.Parser.ParseInfixExpression | parser.ts:223-238 | agrees with `ParserSpec.ParseInfix` on the binary operators |
| Parsing.Parser.ParseGrouped | parser.ts:240-252 | agrees with `ParserSpec.ParseGrouped` |
| Parsing.Parser.ParseIfExpression | parser.ts:254-262 | agrees with `ParserSpec.ParseIf` |
| Parsing.Parser.ParseIfCondition | parser.ts:264-270 | agrees with `ParserSpec.IfCondition` |
| Parsing.Parser.ParseIfAlternative | parser.ts:271-280 | agrees with `ParserSpec.IfAlternative` |
| Parsing.Parser.ParseCallExpression | parser.ts:283-293 | agrees with `ParserSpec.ParseInfix` on `(` |
| Parsing.Parser.ParseCallArgs | parser.ts:295-318 | agrees with `ParserSpec.ParseCallArgs`, where a missing `)` gives null |
| Parsing.Parser.ParseMoreArgs | parser.ts:306-311 | the loop agrees with `ParserSpec.ArgsLoop` |
| Parsing.Parser.GetErrors | parser.ts:320-322 | returns the collected errors |
| Parsing.Parser.ParseProgram | parser.ts:332-366 | the loop agrees with `ParserSpec.ProgramLoop` |
| Parsing.Parser.ParseStatement | parser.ts:368-377 | agrees with `ParserSpec.ParseStatement` |
| Parsing.Parser.ParseLetStatement | parser.ts:379-402 | agrees with `ParserSpec.ParseLet` |
| Parsing.Parser.ParseReturnStatement | parser.ts:404-418 | agrees with `ParserSpec.ParseReturn` |
| Parsing.Parser.ParseExpressionStatement | parser.ts:420-431 | agrees with `ParserSpec.ParseExpressionStatement` |
| Parsing.Parser.SkipSemicolon | parser.ts:397-399 | agrees with `ParserSpec.SkipSemicolon` |
| Parsing.Parser.ParseExpression | parser.ts:433-441 | agrees with `ParserSpec.ParseExpression` |
| Parsing.Parser.ParseInfixLoop | parser.ts:443-453 | the loop agrees with `ParserSpec.ExprLoop` |
| Parsing.Parser.ParseInfix | parser.ts:444-450 | the infix dispatch agrees with `ParserSpec.ParseInfix` |
| Parsing.Parser.ParseBlockStatement | parser.ts:456-475 | the loop agrees with `ParserSpec.ParseBlock` |
| Parsing.ParseSource | tests/parser.test.ts:42-45 | a lexer under a parser gives the program and errors of the parse function on the lexer's stream |
| Objects.NewInteger | objects.ts:22 | the value is the floor of the argument, and 0 when it is absent |
| Objects.NewBoolean | objects.ts:30 | the value is the argument, and false when it is absent |
| Objects.TypeOf | objects.ts:19-87 | each class answers its own tag constant, and only that class answers it |
| Objects.Inspect | objects.ts:24-86 | integers give decimal text with `-` exactly for negatives; booleans `true`/`false`; strings themselves; functions start with `fn(`; errors with `ERROR: ` |
| Objects.TagsIdentifyClasses | objects.ts:11-87 | two values have the same tag exactly when they belong to the same class |
| Objects.IntegerOfWhole | objects.ts:22 | the constructor keeps whole numbers as they are |
| Objects.IntegerInspects | objects.ts:24 | an integer inspects as its decimal text, with `-` exactly for negatives |
| Objects.ReturnInspectsInner | objects.ts:45 | a returned value inspects as the value inside all its wrappers |
| Objects.Unwrapped | objects.ts:40-46 | peeling the wrappers leaves a value that is not a return |
| Objects.Environment.constructor | env.ts:6-8 | a new environment is empty |
| Objects.Environment.Get | env.ts:10-16 | answers the stored value, or `identifier not found: <name>` for a missing name |
| Objects.Environment.Set | env.ts:18-20 | binds the name and changes nothing else |
| Objects.Lookup | env.ts:10-16 | a stored name answers its value; a missing one answers the not-found error |
| Objects.SetThenGet | env.ts:10-20 | after setting a name, getting it answers the new value and every other name answers as before |
| Objects.SetOverwrites | env.ts:18-20 | a second set of the same name replaces the first |
| Objects.MissingName | env.ts:11-13 | a missing name gives an error that inspects as `ERROR: identifier not found: <name>` |
| Objects.SetGet | env.ts:10-20 | set then get on one environment object answers the value set and leaves other names alone |
| Evaluator.ToBoolObj | evaluator.ts:58-61 | the shared boolean of the given truth value |
| Evaluator.Identical | evaluator.ts:94-100 | only a shared boolean or null is identical to anything, and then to an equal value |
| Evaluator.EvalNot | evaluator.ts:36-47 | `!x` is the shared boolean of x not being truthy |
| Evaluator.EvalMinus | evaluator.ts:49-56 | an integer is negated; anything else gives NULL |
| Evaluator.EvalPrefix | evaluator.ts:105-114 | the result is an integer, boolean or null; `!` gives a boolean true exactly for falsy values; other operators give NULL |
| Evaluator.EvalIntInfix | evaluator.ts:63-87 | fails exactly on division by zero; comparisons give booleans; an unknown operator gives NULL; every value is an integer, boolean or null |
| Evaluator.EvalInfix | evaluator.ts:89-103 | fails exactly on an integer division by zero; `==` and `!=` always give a boolean; every value is an integer, boolean or null |
| Evaluator.IsTruthy | evaluator.ts:116-127 | every value but NULL and FALSE is truthy |
| Evaluator.EvalExpr | evaluator.ts:141-185 | an expression's value is an integer, boolean or null, wrapped in returns only when it came from an if-expression |
| Evaluator.EvalIf | evaluator.ts:129-139 | the value is a possibly wrapped integer, boolean or null; with neither block it is NULL |
| Evaluator.EvalStmt | evaluator.ts:146-182 | a return statement gives a `Return`; a let statement gives NULL; nothing else than possibly wrapped integers, booleans and null |
| Evaluator.EvalOpt | evaluator.ts:184 | `Eval(null)` of an absent expression falls through to NULL; any value is a possibly wrapped integer, boolean or null |
| Evaluator.EvalOptBlock | evaluator.ts:184 | an absent block evaluates to NULL; any value is a possibly wrapped integer, boolean or null |
| Evaluator.BlockFold | evaluator.ts:25-33 | from a possibly wrapped primitive, the walk gives one too |
| Evaluator.BlockResult | evaluator.ts:22-34 | an empty block is NULL; any value is a possibly wrapped integer, boolean or null |
| Evaluator.ProgramFold | evaluator.ts:11-19 | from a possibly wrapped primitive, the walk gives one too |
| Evaluator.ProgramResult | evaluator.ts:8-20 | an empty program is NULL; any value is a possibly wrapped integer, boolean or null |
| Evaluator.EvalProgram | evaluator.ts:8-20 | the loop computes `ProgramResult` |
| Evaluator.EvalBlockStatement | evaluator.ts:22-34 | the loop computes `BlockResult` |
| EvaluatorFacts.TruthinessTable | evaluator.ts:116-127 | only NULL and FALSE are falsy; 0 and the empty string are truthy |
| EvaluatorFacts.NotTable | evaluator.ts:36-47 | `!` is TRUE exactly for falsy values: true→false, false→true, null→true, 0→false |
| EvaluatorFacts.DoubleNot | evaluator.ts:36-47 | `!!x` is the truthiness of `x` |
| EvaluatorFacts.MinusTable | evaluator.ts:49-56 | `-` negates an integer and gives NULL for anything else |
| EvaluatorFacts.MinusInvolution | evaluator.ts:49-56 | `--n` is `n` |
| EvaluatorFacts.UnknownPrefix | evaluator.ts:105-114 | any other prefix operator gives NULL |
| EvaluatorFacts.FloorDiv | evaluator.ts:74-75 | the reference quotient lies in the floor interval for either sign of the divisor |
| EvaluatorFacts.FloorUnique | objects.ts:22 | the floor of a real is unique |
| EvaluatorFacts.SignOfProduct | objects.ts:22 | a product with a positive factor has the other factor's sign |
| EvaluatorFacts.DivideBounds | evaluator.ts:74-75 | dividing bounds by a positive divisor keeps them |
| EvaluatorFacts.QuotientBounds | evaluator.ts:74-75 | an integer in the floor interval is below the real quotient, by less than one |
| EvaluatorFacts.FlooredDivision | evaluator.ts:74-75 | integer `/` is the floored quotient; a zero divisor has no value |
| EvaluatorFacts.DivisionRoundsDown | evaluator.ts:74-75 | `7/2` is 3, `-7/2` and `7/-2` are -4 |
| EvaluatorFacts.IntegerOperators | evaluator.ts:63-83 | on integers, `+ - *` are exact and `< > == !=` give the shared booleans |
| EvaluatorFacts.UnknownIntegerOperator | evaluator.ts:84-85 | any other operator between integers gives NULL |
| EvaluatorFacts.NotEqualNegatesEqual | evaluator.ts:80-100 | `!=` always answers the negation of `==`, which is always a boolean |
| EvaluatorFacts.SharedValuesCompareByValue | evaluator.ts:94-100 | on TRUE, FALSE and NULL, `==` and `!=` are value comparison |
| EvaluatorFacts.FreshValuesDiffer | evaluator.ts:94-100 | returns and strings are never identical, and an integer never equals a non-integer |
| EvaluatorFacts.MixedOperatorsAreNull | evaluator.ts:89-103 | unless both sides are integers, every operator but `==` and `!=` gives NULL |
| EvaluatorFacts.RightOperandFirst | evaluator.ts:165-168 | the right operand is evaluated first, so its failure is the one reported |
| EvaluatorFacts.IfChooses | evaluator.ts:129-139 | a truthy condition picks the consequence, else the alternative, else NULL |
| EvaluatorFacts.IfWithoutCondition | evaluator.ts:129-139 | a missing condition counts as NULL, which is falsy |
| EvaluatorFacts.OtherNodesAreNull | evaluator.ts:184 | identifiers, function literals, calls, strings, `let` and null nodes evaluate to NULL |
| EvaluatorFacts.ReturnWraps | evaluator.ts:179-182 | a return statement wraps its value |
| EvaluatorFacts.ProgramRunsToEnd | evaluator.ts:8-20 | without a return, a program has its last statement's value, and NULL when empty |
| EvaluatorFacts.ProgramStopsAtReturn | evaluator.ts:11-17 | the first return ends the program, and its value is unwrapped |
| EvaluatorFacts.BlockRunsToEnd | evaluator.ts:22-34 | without a return, a block has its last statement's value, and NULL when empty |
| EvaluatorFacts.BlockStopsAtReturn | evaluator.ts:25-31 | the first return ends a block, which keeps it wrapped |
| EvaluatorFacts.NestedReturn | evaluator.ts:8-34 | `if (true) { if (true) { return 10; } return 1; }` has the value 10 |
| EvaluatorFacts.UnwrappedOnce | evaluator.ts:14-16 | a program unwraps a return only once, and the inner return inspects as its value |
| Interpreter.TestEval | tests/evaluator.test.ts:12-19 | lexing, parsing and evaluating gives `Interpret` of the text |
| Interpreter.Interpret | tests/evaluator.test.ts:12-19 | the run stops for the parser exactly when the parse aborts; a value is a possibly wrapped integer, boolean or null |
| Interpreter.DigitsLexed | lexer/lexer.ts:115-119 | `5` and `10` each lex to one INT token |
| Interpreter.LiteralParsed | parser.ts:420-431 | a lone INT token parses to one expression statement holding its value |
| Interpreter.IntegerPrograms | tests/evaluator.test.ts:34-44 | the texts `5` and `10` evaluate to the integers 5 and 10 |

## Left out

- The interactive front end (repl.ts), console output and `tokToStr` (parser.ts:53-62) are left out. They are I/O or unused.
- `process.exit(1)` in `nextToken` (parser.ts:67-70) becomes `Failure(ReachedEof)`. The `Got null left` throw (parser.ts:448) becomes `Failure(NullLeft)`. The model does not print the message `ERROR: Reached EOF`.
- The prefix and infix rule tables are process-wide records that `parseProgram` fills (parser.ts:30-31, 324-353). The model uses a fixed dispatch on the token kind instead. This is the same once `parseProgram` has run, which is always the case before any expression is parsed.
- `registerPrefixFunc` and `registerInfixFunc` (parser.ts:324-330) only fill those tables. They have no member of their own.
- The `infix == null` exit of the expression loop (parser.ts:446) is not modelled. `ParserFacts.PrecedenceTable` shows that it cannot be taken.
- JavaScript numbers are modelled as unbounded integers. Precision loss beyond 2^53, `-0` and `Number()` forms other than plain digit strings (parser.ts:127) are left out. Those forms cannot reach the parser: `TokenStream.IntegerLiteralsParse` proves that every INT literal of the lexer's stream is a digit run. Digit strings too long for a double are not rounded.
- Evaluator.EvalIntInfix: a division by zero yields `Failure(NonFinite)` instead of an `Integer` holding Infinity or NaN (evaluator.ts:75). Evaluation stops there; the source would go on with that value.
- The identity `===` (evaluator.ts:95, 99) is modelled by `Identical`. Only the shared TRUE, FALSE and NULL objects can be identical, because every other value the evaluator compares is freshly allocated.
- Objects.Lookup: the store is a clean map, so prototype names such as `toString` are not found. In the source, `name in {}` is true for them (env.ts:11).
- Strings are sequences of characters, not UTF-16 code units. At a NUL character inside the input, the lexer's stream (`TokenStream.Stream`) holds an EOF token and goes on lexing after it, as the source's lexer does; it is the parser that stops at the first EOF. The lemmas about EOF staying EOF assume an input without NUL.
- String literals, closures, calls with environments and error propagation do not exist in this code. `Eval` gives NULL for those nodes (evaluator.ts:184), and the model does the same.
- The second lexer sample (tests/lexer.test.ts:30-128) is not restated. The lexer lemmas cover each of its token forms.
- ParserFacts.LeftAssociative, TighterGroupsRight and PrefixBindsTighter are stated for identifier operands only; integer and boolean operands parse the same way but are not covered by those lemmas.
