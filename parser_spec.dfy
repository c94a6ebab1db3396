/** What the Pratt parser of parser.ts computes, as functions of the token
    stream and the parser's position in it. The stream `ts` is what the lexer
    hands out before its first EOF; past its end the lexer keeps answering
    EOF, which `At` returns. A state is the index of the current token and the
    error list; the peek token is the one after the current one.

    The two ways a parse stops the run are values of `Fault`: advancing while
    the current token is already EOF (parser.ts:67-70), and a null left operand
    reaching an infix rule (parser.ts:448). */
module ParserSpec {
  import opened Wrappers
  import opened Tokens
  import opened Ast
  import Numbers

  /** The `Precedence` ladder (parser.ts:8-16), by its enum values. */
  type Precedence = p: nat | p <= 6

  const LOWEST: Precedence := 0
  const EQUALS: Precedence := 1
  const LESSGREATER: Precedence := 2
  const SUM: Precedence := 3
  const PRODUCT: Precedence := 4
  const PREFIX: Precedence := 5
  const CALL: Precedence := 6

  /** The `precedences` table (parser.ts:18-28). */
  const Precedences: map<TokenType, Precedence> :=
    map[EQ := EQUALS, NOT_EQ := EQUALS, LT := LESSGREATER, GT := LESSGREATER,
        PLUS := SUM, MINUS := SUM, SLASH := PRODUCT, ASTERISK := PRODUCT, LPAREN := CALL]

  /** `peekPrecedence`/`curPrecedence` on a kind: the table entry, LOWEST when absent. */
  function PrecedenceOf(k: TokenType): (p: Precedence)
    ensures k in Precedences ==> p > LOWEST
    ensures k !in Precedences ==> p == LOWEST
  {
    if k in Precedences then Precedences[k] else LOWEST
  }

  /** The kinds `parseProgram` registers a prefix rule and an infix rule for
      (parser.ts:335-353). */
  const PrefixKinds: seq<TokenType> := [IDENT, INT, BANG, MINUS, TRUE, FALSE, LPAREN, IF, FUNCTION]
  const InfixKinds: seq<TokenType> := [EQ, NOT_EQ, LT, GT, PLUS, MINUS, SLASH, ASTERISK, LPAREN]

  datatype Fault = ReachedEof | NullLeft

  datatype PState = PState(pos: nat, errors: seq<string>)

  /** A node built by a rule together with the state after it. */
  datatype Parsed<T> = Parsed(node: T, st: PState)

  type Outcome<T> = Result<Parsed<T>, Fault>

  /** The token the lexer hands out for the `k`-th call. */
  function At(ts: seq<Token>, k: nat): Token {
    if k < |ts| then ts[k] else Token(EOF, "")
  }

  ghost predicate Ok(ts: seq<Token>, s: PState) {
    s.pos <= |ts|
  }

  function Cur(ts: seq<Token>, s: PState): Token {
    At(ts, s.pos)
  }

  function Peek(ts: seq<Token>, s: PState): Token {
    At(ts, s.pos + 1)
  }

  function Remaining(ts: seq<Token>, s: PState): nat
    requires Ok(ts, s)
  {
    |ts| - s.pos
  }

  /** A block ends on its `}`, or on EOF when the input ends first. */
  ghost predicate Closed(ts: seq<Token>, s: PState) {
    Cur(ts, s).Type == RBRACE || Cur(ts, s).Type == EOF
  }

  /** A later state: never behind, never past the end, and errors only appended. */
  ghost predicate Advanced(ts: seq<Token>, s: PState, s': PState) {
    s.pos <= s'.pos <= |ts| && s.errors <= s'.errors
  }

  /** `nextToken`: aborts when the current token is EOF, otherwise moves both
      tokens one place on. */
  function NextToken(ts: seq<Token>, s: PState): (r: Result<PState, Fault>)
    requires Ok(ts, s)
    ensures r.Failure? <==> Cur(ts, s).Type == EOF
    ensures r.Failure? ==> r.error == ReachedEof
    ensures r.Success? ==> r.value.pos == s.pos + 1 && r.value.errors == s.errors && Ok(ts, r.value)
    ensures r.Success? ==> Cur(ts, r.value) == Peek(ts, s)
  {
    if Cur(ts, s).Type == EOF then Failure(ReachedEof) else Success(s.(pos := s.pos + 1))
  }

  /** `nextToken` where the current token is known not to be EOF. */
  function Shift(ts: seq<Token>, s: PState): PState
    requires Ok(ts, s) && Cur(ts, s).Type != EOF
  {
    NextToken(ts, s).value
  }

  /** The message of `peekError`: the kind expected, then the kind found. */
  function PeekErrorMessage(t: TokenType, got: TokenType): (r: string)
    ensures |r| == |t| + |got| + 16
  {
    "Expected '" + t + "' got " + got
  }

  /** The message of `noPrefixParseFnError`, naming the kind found. */
  function NoPrefixMessage(k: TokenType): (r: string)
    ensures |r| == |k| + 35
  {
    "No prefix parse function found for " + k
  }

  /** The message of `parseIntegerLiteral`, quoting the literal and keeping
      the code's spelling `expcting`. */
  function InvalidIntegerMessage(literal: string): (r: string)
    ensures |r| == |literal| + 34
  {
    "Invalid literal '" + literal + "': expcting 'int'"
  }

  /** The answer of `expectPeek` and the state after it. */
  datatype Step = Step(ok: bool, st: PState)

  /** `expectPeek(t)`: on a match it advances exactly once, otherwise it records
      the peek error and changes nothing else. */
  function ExpectPeek(ts: seq<Token>, s: PState, t: TokenType): (r: Result<Step, Fault>)
    requires Ok(ts, s)
    ensures r.Failure? <==> Peek(ts, s).Type == t && Cur(ts, s).Type == EOF
    ensures r.Success? && r.value.ok ==>
      Peek(ts, s).Type == t && r.value.st == s.(pos := s.pos + 1) && Ok(ts, r.value.st)
      && Cur(ts, r.value.st) == Peek(ts, s)
    ensures r.Success? && !r.value.ok ==>
      Peek(ts, s).Type != t && r.value.st == s.(errors := s.errors + [PeekErrorMessage(t, Peek(ts, s).Type)])
  {
    if Peek(ts, s).Type != t then
      Success(Step(false, s.(errors := s.errors + [PeekErrorMessage(t, Peek(ts, s).Type)])))
    else
      var s1 :- NextToken(ts, s);
      Success(Step(true, s1))
  }

  /** `expectPeek(t)` where the current token is known not to be EOF, so that
      it cannot abort. */
  function Expect(ts: seq<Token>, s: PState, t: TokenType): Step
    requires Ok(ts, s) && Cur(ts, s).Type != EOF
  {
    ExpectPeek(ts, s, t).value
  }

  /** An identifier node for a token. */
  function IdentOf(t: Token): Identifier {
    Identifier(t, t.Literal)
  }

  /** What `Number(literal)` gives for the literals an INT token can carry: the
      value of a digit string (the empty one reads as 0), and NaN (here None)
      for anything else. */
  function NumberOf(literal: string): (n: Option<nat>)
    ensures n.Some? <==> Numbers.AllDigits(literal)
    ensures literal == "" ==> n == Some(0)
  {
    if Numbers.AllDigits(literal) then Some(Numbers.DigitsValue(literal)) else None
  }

  /** `parseIntegerLiteral`. */
  function ParseIntegerLiteral(ts: seq<Token>, s: PState): (r: Parsed<Option<Expression>>)
    ensures Numbers.AllDigits(Cur(ts, s).Literal) ==>
      r == Parsed(Some(IntegerLiteral(Cur(ts, s), Numbers.DigitsValue(Cur(ts, s).Literal))), s)
    ensures !Numbers.AllDigits(Cur(ts, s).Literal) ==>
      r.node.None? && r.st == s.(errors := s.errors + [InvalidIntegerMessage(Cur(ts, s).Literal)])
  {
    var t := Cur(ts, s);
    match NumberOf(t.Literal)
    case None => Parsed(None, s.(errors := s.errors + [InvalidIntegerMessage(t.Literal)]))
    case Some(v) => Parsed(Some(IntegerLiteral(t, v)), s)
  }

  /** The trailing `if (peekTokenIs(SEMICOLON)) nextToken()` of the statement rules. */
  function SkipSemicolon(ts: seq<Token>, s: PState): (r: Result<PState, Fault>)
    requires Ok(ts, s)
    ensures r.Success? ==> Advanced(ts, s, r.value) && r.value.errors == s.errors
    ensures Peek(ts, s).Type != SEMICOLON ==> r == Success(s)
    ensures Peek(ts, s).Type == SEMICOLON && r.Success? ==> r.value == s.(pos := s.pos + 1)
  {
    if Peek(ts, s).Type == SEMICOLON then NextToken(ts, s) else Success(s)
  }

  /** `parseFunctionParams`, entered with `(` as the current token. */
  function ParseParams(ts: seq<Token>, s: PState): (r: Outcome<seq<Identifier>>)
    requires Ok(ts, s) && Cur(ts, s).Type == LPAREN
    ensures r.Success? ==> Advanced(ts, s, r.value.st) && r.value.st.pos > s.pos
  {
    if Peek(ts, s).Type == RPAREN then
      Success(Parsed([], Shift(ts, s)))
    else
      var s1 := Shift(ts, s);
      var all :- ParamsLoop(ts, s1, [IdentOf(Cur(ts, s1))]);
      var rp :- ExpectPeek(ts, all.st, RPAREN);
      Success(Parsed(all.node, rp.st))
  }

  /** The `while (peekTokenIs(COMMA))` loop of `parseFunctionParams`. */
  function ParamsLoop(ts: seq<Token>, s: PState, acc: seq<Identifier>): (r: Outcome<seq<Identifier>>)
    requires Ok(ts, s)
    ensures r.Success? ==> Advanced(ts, s, r.value.st)
    ensures r.Success? ==> acc <= r.value.node && Peek(ts, r.value.st).Type != COMMA
    decreases Remaining(ts, s)
  {
    if Peek(ts, s).Type == COMMA then
      var s1 :- NextToken(ts, s);
      var s2 := Shift(ts, s1);
      ParamsLoop(ts, s2, acc + [IdentOf(Cur(ts, s2))])
    else
      Success(Parsed(acc, s))
  }

  /** The statement a rule yields, as the (empty or one-element) list pushed. */
  function OptList(s: Option<Statement>): seq<Statement> {
    if s.Some? then [s.value] else []
  }

  /** `parseExpression(precedence)`. */
  function ParseExpression(ts: seq<Token>, s: PState, prec: Precedence): (r: Outcome<Option<Expression>>)
    requires Ok(ts, s)
    ensures r.Success? ==> Advanced(ts, s, r.value.st)
    decreases Remaining(ts, s), 3
  {
    var k := Cur(ts, s).Type;
    if k !in PrefixKinds then
      Success(Parsed(None, s.(errors := s.errors + [NoPrefixMessage(k)])))
    else
      var left :- ParsePrefix(ts, s);
      ExprLoop(ts, left.st, prec, left.node)
  }

  /** The prefix rule registered for the current kind. */
  function ParsePrefix(ts: seq<Token>, s: PState): (r: Outcome<Option<Expression>>)
    requires Ok(ts, s) && Cur(ts, s).Type in PrefixKinds
    ensures r.Success? ==> Advanced(ts, s, r.value.st)
    ensures Cur(ts, s).Type in [IDENT, INT, TRUE, FALSE] ==> r.Success? && r.value.st.pos == s.pos
    decreases Remaining(ts, s), 2
  {
    var t := Cur(ts, s);
    if t.Type == IDENT then Success(Parsed(Some(Ident(IdentOf(t))), s))
    else if t.Type == INT then Success(ParseIntegerLiteral(ts, s))
    else if t.Type == BANG || t.Type == MINUS then ParsePrefixExpression(ts, s)
    else if t.Type == TRUE || t.Type == FALSE then Success(Parsed(Some(BooleanExpression(t, t.Literal == "true")), s))
    else if t.Type == LPAREN then ParseGrouped(ts, s)
    else if t.Type == IF then ParseIf(ts, s)
    else ParseFunctionLiteral(ts, s)
  }

  /** `parsePrefixExpression`: the operand is parsed at PREFIX. */
  function ParsePrefixExpression(ts: seq<Token>, s: PState): (r: Outcome<Option<Expression>>)
    requires Ok(ts, s) && (Cur(ts, s).Type == BANG || Cur(ts, s).Type == MINUS)
    ensures r.Success? ==> Advanced(ts, s, r.value.st) && r.value.st.pos > s.pos
    ensures r.Success? ==> r.value.node.Some? && r.value.node.value.PrefixExpression?
    decreases Remaining(ts, s), 1
  {
    var t := Cur(ts, s);
    var right :- ParseExpression(ts, Shift(ts, s), PREFIX);
    Success(Parsed(Some(PrefixExpression(t, t.Literal, right.node)), right.st))
  }

  /** `parseiGroupedLiteral`: the inside re-enters at LOWEST; a missing `)`
      makes the whole group null. */
  function ParseGrouped(ts: seq<Token>, s: PState): (r: Outcome<Option<Expression>>)
    requires Ok(ts, s) && Cur(ts, s).Type == LPAREN
    ensures r.Success? ==> Advanced(ts, s, r.value.st) && r.value.st.pos > s.pos
    ensures r.Success? && r.value.node.Some? ==> Cur(ts, r.value.st).Type == RPAREN
    decreases Remaining(ts, s), 1
  {
    var e :- ParseExpression(ts, Shift(ts, s), LOWEST);
    var rp :- ExpectPeek(ts, e.st, RPAREN);
    Success(Parsed(if rp.ok then e.node else None, rp.st))
  }

  /** `parseIfExpression`: `(`, the condition, `)`, `{` and the consequence,
      then an optional `else` block; a missing delimiter makes it null. */
  function ParseIf(ts: seq<Token>, s: PState): (r: Outcome<Option<Expression>>)
    requires Ok(ts, s) && Cur(ts, s).Type == IF
    ensures r.Success? ==> Advanced(ts, s, r.value.st)
    ensures r.Success? && r.value.node.Some? ==> r.value.node.value.IfExpression? && Closed(ts, r.value.st)
    decreases Remaining(ts, s), 1
  {
    var lp := Expect(ts, s, LPAREN);
    if !lp.ok then Success(Parsed(None, lp.st)) else
    IfCondition(ts, Shift(ts, lp.st), Cur(ts, s))
  }

  /** The part of `parseIfExpression` from the condition to the consequence. */
  function IfCondition(ts: seq<Token>, s: PState, t: Token): (r: Outcome<Option<Expression>>)
    requires Ok(ts, s)
    ensures r.Success? ==> Advanced(ts, s, r.value.st)
    ensures r.Success? && r.value.node.Some? ==>
      r.value.node.value.IfExpression? && r.value.node.value.consequence.Some? && Closed(ts, r.value.st)
    decreases Remaining(ts, s), 4
  {
    var cond :- ParseExpression(ts, s, LOWEST);
    var rp :- ExpectPeek(ts, cond.st, RPAREN);
    if !rp.ok then Success(Parsed(None, rp.st)) else
    var lb := Expect(ts, rp.st, LBRACE);
    if !lb.ok then Success(Parsed(None, lb.st)) else
    var cons :- ParseBlock(ts, lb.st);
    IfAlternative(ts, cons.st, t, cond.node, cons.node)
  }

  /** The optional `else` block of `parseIfExpression`. */
  function IfAlternative(ts: seq<Token>, s: PState, t: Token, cond: Option<Expression>, cons: BlockStatement)
    : (r: Outcome<Option<Expression>>)
    requires Ok(ts, s)
    ensures r.Success? ==> Advanced(ts, s, r.value.st)
    ensures r.Success? && r.value.node.Some? ==>
      r.value.node.value.IfExpression?
      && r.value.node == Some(IfExpression(t, cond, Some(cons), r.value.node.value.alternative))
    ensures r.Success? && r.value.node.Some? && Closed(ts, s) ==> Closed(ts, r.value.st)
    ensures Peek(ts, s).Type != ELSE ==> r == Success(Parsed(Some(IfExpression(t, cond, Some(cons), None)), s))
    decreases Remaining(ts, s), 0
  {
    if Peek(ts, s).Type == ELSE then
      var s1 :- NextToken(ts, s);
      var lb := Expect(ts, s1, LBRACE);
      if !lb.ok then Success(Parsed(None, lb.st)) else
      var alt :- ParseBlock(ts, lb.st);
      Success(Parsed(Some(IfExpression(t, cond, Some(cons), Some(alt.node))), alt.st))
    else
      Success(Parsed(Some(IfExpression(t, cond, Some(cons), None)), s))
  }

  /** `parseFunctionLiteral`. The rule never sets the node's token, so the
      literal keeps the empty one of `new Token()`. */
  function ParseFunctionLiteral(ts: seq<Token>, s: PState): (r: Outcome<Option<Expression>>)
    requires Ok(ts, s) && Cur(ts, s).Type == FUNCTION
    ensures r.Success? ==> Advanced(ts, s, r.value.st)
    ensures r.Success? && r.value.node.Some? ==>
      r.value.node.value.FunctionLiteral? && r.value.node.value.token == NewToken() && Closed(ts, r.value.st)
    decreases Remaining(ts, s), 1
  {
    var lp := Expect(ts, s, LPAREN);
    if !lp.ok then Success(Parsed(None, lp.st)) else
    var params :- ParseParams(ts, lp.st);
    var lb :- ExpectPeek(ts, params.st, LBRACE);
    if !lb.ok then Success(Parsed(None, lb.st)) else
    var body :- ParseBlock(ts, lb.st);
    Success(Parsed(Some(FunctionLiteral(NewToken(), params.node, Some(body.node))), body.st))
  }

  /** The `while` loop of `parseExpression`: while the peek token is not `;`
      and binds tighter than `prec`, advance onto it and apply its infix rule,
      aborting when there is no left operand. */
  function ExprLoop(ts: seq<Token>, s: PState, prec: Precedence, left: Option<Expression>): (r: Outcome<Option<Expression>>)
    requires Ok(ts, s)
    ensures r.Success? ==> Advanced(ts, s, r.value.st)
    ensures r.Success? ==> Peek(ts, r.value.st).Type == SEMICOLON || PrecedenceOf(Peek(ts, r.value.st).Type) <= prec
    ensures r.Success? && left.Some? ==> r.value.node.Some?
    decreases Remaining(ts, s), 1
  {
    var p := Peek(ts, s);
    if p.Type != SEMICOLON && prec < PrecedenceOf(p.Type) then
      var s1 :- NextToken(ts, s);
      if left.None? then Failure(NullLeft) else
      var e :- ParseInfix(ts, s1, left.value);
      ExprLoop(ts, e.st, prec, Some(e.node))
    else
      Success(Parsed(left, s))
  }

  /** The infix rule registered for the current kind: a call for `(`, a binary
      expression whose right operand is parsed at the operator's own precedence
      otherwise. */
  function ParseInfix(ts: seq<Token>, s: PState, left: Expression): (r: Outcome<Expression>)
    requires Ok(ts, s) && Cur(ts, s).Type in Precedences
    ensures r.Success? ==> Advanced(ts, s, r.value.st) && r.value.st.pos > s.pos
    ensures r.Success? && Cur(ts, s).Type == LPAREN ==> r.value.node.CallExpression? && r.value.node.callee == Some(left)
    ensures r.Success? && Cur(ts, s).Type != LPAREN ==>
      r.value.node.InfixExpression? && r.value.node.left == Some(left) && r.value.node.operator == Cur(ts, s).Literal
    decreases Remaining(ts, s), 1
  {
    var t := Cur(ts, s);
    if t.Type == LPAREN then
      var args :- ParseCallArgs(ts, s);
      Success(Parsed(CallExpression(t, Some(left), args.node), args.st))
    else
      var right :- ParseExpression(ts, Shift(ts, s), PrecedenceOf(t.Type));
      Success(Parsed(InfixExpression(t, Some(left), t.Literal, right.node), right.st))
  }

  /** `parseCallArgs`, entered with `(` as the current token: null when the
      closing `)` is missing. */
  function ParseCallArgs(ts: seq<Token>, s: PState): (r: Outcome<Option<Arguments>>)
    requires Ok(ts, s) && Cur(ts, s).Type == LPAREN
    ensures r.Success? ==> Advanced(ts, s, r.value.st) && r.value.st.pos > s.pos
    ensures r.Success? && r.value.node.Some? ==> Cur(ts, r.value.st).Type == RPAREN
    decreases Remaining(ts, s), 0
  {
    if Peek(ts, s).Type == RPAREN then
      Success(Parsed(Some(Arguments([])), Shift(ts, s)))
    else
      var first :- ParseExpression(ts, Shift(ts, s), LOWEST);
      var all :- ArgsLoop(ts, first.st, [first.node]);
      var rp :- ExpectPeek(ts, all.st, RPAREN);
      Success(Parsed(if rp.ok then Some(Arguments(all.node)) else None, rp.st))
  }

  /** The `while (peekTokenIs(COMMA))` loop of `parseCallArgs`. */
  function ArgsLoop(ts: seq<Token>, s: PState, acc: seq<Option<Expression>>): (r: Outcome<seq<Option<Expression>>>)
    requires Ok(ts, s)
    ensures r.Success? ==> Advanced(ts, s, r.value.st)
    ensures r.Success? ==> acc <= r.value.node && Peek(ts, r.value.st).Type != COMMA
    decreases Remaining(ts, s), 0
  {
    if Peek(ts, s).Type == COMMA then
      var s1 :- NextToken(ts, s);
      var e :- ParseExpression(ts, Shift(ts, s1), LOWEST);
      ArgsLoop(ts, e.st, acc + [e.node])
    else
      Success(Parsed(acc, s))
  }

  /** `parseBlockStatement`, entered with `{` as the current token. */
  function ParseBlock(ts: seq<Token>, s: PState): (r: Outcome<BlockStatement>)
    requires Ok(ts, s) && Cur(ts, s).Type == LBRACE
    ensures r.Success? ==> Advanced(ts, s, r.value.st) && r.value.st.pos > s.pos
    ensures r.Success? ==> r.value.node.token == Cur(ts, s) && Closed(ts, r.value.st)
    decreases Remaining(ts, s), 0
  {
    BlockLoop(ts, Shift(ts, s), Cur(ts, s), [])
  }

  /** The loop of `parseBlockStatement`: statements up to `}` or EOF, the null
      ones dropped. */
  function BlockLoop(ts: seq<Token>, s: PState, tok: Token, acc: seq<Statement>): (r: Outcome<BlockStatement>)
    requires Ok(ts, s)
    ensures r.Success? ==> Advanced(ts, s, r.value.st) && Closed(ts, r.value.st)
    ensures r.Success? ==> r.value.node.token == tok && acc <= r.value.node.statements
    decreases Remaining(ts, s), 6
  {
    var k := Cur(ts, s).Type;
    if k != RBRACE && k != EOF then
      var st :- ParseStatement(ts, s);
      var s1 :- NextToken(ts, st.st);
      BlockLoop(ts, s1, tok, acc + OptList(st.node))
    else
      Success(Parsed(BlockStatement(tok, acc), s))
  }

  /** `parseStatement`: dispatch on the current kind. */
  function ParseStatement(ts: seq<Token>, s: PState): (r: Outcome<Option<Statement>>)
    requires Ok(ts, s)
    ensures r.Success? ==> Advanced(ts, s, r.value.st)
    ensures r.Success? && r.value.node.Some? ==>
      (r.value.node.value.LetStatement? <==> Cur(ts, s).Type == LET)
      && (r.value.node.value.ReturnStatement? <==> Cur(ts, s).Type == RETURN)
    ensures Cur(ts, s).Type != LET && r.Success? ==> r.value.node.Some?
    decreases Remaining(ts, s), 5
  {
    var k := Cur(ts, s).Type;
    if k == LET then ParseLet(ts, s)
    else if k == RETURN then ParseReturn(ts, s)
    else ParseExpressionStatement(ts, s)
  }

  /** `parseLetStatement`: null unless an identifier and `=` follow. */
  function ParseLet(ts: seq<Token>, s: PState): (r: Outcome<Option<Statement>>)
    requires Ok(ts, s) && Cur(ts, s).Type == LET
    ensures r.Success? ==> Advanced(ts, s, r.value.st)
    ensures r.Success? && r.value.node.Some? ==>
      r.value.node.value.LetStatement? && r.value.node.value.name.Some? && r.value.node.value.token == Cur(ts, s)
      && r.value.st.pos >= s.pos + 3
    decreases Remaining(ts, s), 4
  {
    var t := Cur(ts, s);
    var id := Expect(ts, s, IDENT);
    if !id.ok then Success(Parsed(None, id.st)) else
    var name := IdentOf(Cur(ts, id.st));
    var eq := Expect(ts, id.st, ASSIGN);
    if !eq.ok then Success(Parsed(None, eq.st)) else
    var value :- ParseExpression(ts, Shift(ts, eq.st), LOWEST);
    var s3 :- SkipSemicolon(ts, value.st);
    Success(Parsed(Some(LetStatement(t, Some(name), value.node)), s3))
  }

  /** `parseReturnStatement`. */
  function ParseReturn(ts: seq<Token>, s: PState): (r: Outcome<Option<Statement>>)
    requires Ok(ts, s) && Cur(ts, s).Type == RETURN
    ensures r.Success? ==> Advanced(ts, s, r.value.st) && r.value.st.pos > s.pos
    ensures r.Success? ==> r.value.node.Some? && r.value.node.value.ReturnStatement? && r.value.node.value.token == Cur(ts, s)
    decreases Remaining(ts, s), 4
  {
    var t := Cur(ts, s);
    var value :- ParseExpression(ts, Shift(ts, s), LOWEST);
    var s2 :- SkipSemicolon(ts, value.st);
    Success(Parsed(Some(ReturnStatement(t, value.node)), s2))
  }

  /** `parseExpressionStatement`. */
  function ParseExpressionStatement(ts: seq<Token>, s: PState): (r: Outcome<Option<Statement>>)
    requires Ok(ts, s)
    ensures r.Success? ==> Advanced(ts, s, r.value.st)
    ensures r.Success? ==>
      r.value.node.Some? && r.value.node.value.ExpressionStatement? && r.value.node.value.token == Cur(ts, s)
    decreases Remaining(ts, s), 4
  {
    var t := Cur(ts, s);
    var e :- ParseExpression(ts, s, LOWEST);
    var s2 :- SkipSemicolon(ts, e.st);
    Success(Parsed(Some(ExpressionStatement(t, e.node)), s2))
  }

  /** The loop of `parseProgram`: statements up to EOF, the null ones dropped. */
  function ProgramLoop(ts: seq<Token>, s: PState, acc: seq<Statement>): (r: Outcome<Program>)
    requires Ok(ts, s)
    ensures r.Success? ==> Advanced(ts, s, r.value.st) && Cur(ts, r.value.st).Type == EOF
    ensures r.Success? ==> acc <= r.value.node.statements
    decreases Remaining(ts, s)
  {
    if Cur(ts, s).Type != EOF then
      var st :- ParseStatement(ts, s);
      var s1 :- NextToken(ts, st.st);
      ProgramLoop(ts, s1, acc + OptList(st.node))
    else
      Success(Parsed(Program(acc), s))
  }

  /** The state the constructor leaves: the first token current, the second
      peeked, no errors. */
  const Start: PState := PState(0, [])

  /** `new Parser(lexer).parseProgram()`, with the errors it collected. */
  function ParseProgram(ts: seq<Token>): (r: Outcome<Program>)
    ensures r.Success? ==> Advanced(ts, Start, r.value.st) && Cur(ts, r.value.st).Type == EOF
  {
    ProgramLoop(ts, Start, [])
  }
}
