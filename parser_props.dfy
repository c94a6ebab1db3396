/** What the Pratt parser promises: the precedence ladder, operator
    grouping, the null results and error messages of the rules, and the two
    ways a run aborts. */
module ParserFacts {
  import opened Wrappers
  import opened Tokens
  import opened Ast
  import opened ParserSpec

  /** Exactly the kinds with an infix rule bind tighter than LOWEST, so the
      expression loop always finds an infix rule for the token it advances onto. */
  lemma PrecedenceTable(k: TokenType)
    ensures PrecedenceOf(k) > LOWEST <==> k in InfixKinds
    ensures k in Precedences <==> k in InfixKinds
  {
  }

  /** The ladder: comparisons for equality bind loosest, then ordering, sums,
      products, prefix operators, and calls tightest. */
  lemma PrecedenceLadder()
    ensures PrecedenceOf(EQ) == PrecedenceOf(NOT_EQ) < PrecedenceOf(LT) == PrecedenceOf(GT)
    ensures PrecedenceOf(GT) < PrecedenceOf(PLUS) == PrecedenceOf(MINUS)
    ensures PrecedenceOf(MINUS) < PrecedenceOf(ASTERISK) == PrecedenceOf(SLASH)
    ensures PrecedenceOf(SLASH) < PREFIX < PrecedenceOf(LPAREN)
    ensures PrecedenceOf(SEMICOLON) == PrecedenceOf(RPAREN) == PrecedenceOf(EOF) == LOWEST
  {
  }

  /** The kinds parsed as binary operators by `parseInfixExpression`. */
  predicate BinaryKind(k: TokenType) {
    k in [EQ, NOT_EQ, LT, GT, PLUS, MINUS, SLASH, ASTERISK]
  }

  lemma BinaryBelowPrefix(k: TokenType)
    requires BinaryKind(k)
    ensures LOWEST < PrecedenceOf(k) < PREFIX && k in Precedences && k != LPAREN
  {
  }

  /** A kind without a prefix rule yields null and the message naming it, and
      nothing is consumed. */
  lemma NoPrefixRule(ts: seq<Token>, s: PState, prec: Precedence)
    requires Ok(ts, s) && Cur(ts, s).Type !in PrefixKinds
    ensures ParseExpression(ts, s, prec)
         == Success(Parsed(None, s.(errors := s.errors + [NoPrefixMessage(Cur(ts, s).Type)])))
  {
  }

  /** An identifier followed by something that does not bind tighter than
      `prec` is the whole operand, and nothing is consumed. */
  lemma IdentifierOperand(ts: seq<Token>, s: PState, prec: Precedence)
    requires Ok(ts, s) && Cur(ts, s).Type == IDENT
    requires Peek(ts, s).Type == SEMICOLON || PrecedenceOf(Peek(ts, s).Type) <= prec
    ensures ParseExpression(ts, s, prec) == Success(Parsed(Some(Ident(IdentOf(Cur(ts, s)))), s))
  {
    assert ParsePrefix(ts, s) == Success(Parsed(Some(Ident(IdentOf(Cur(ts, s)))), s));
  }

  /** One turn of the expression loop over `op y`, where `y` is an identifier
      and what follows `y` does not bind tighter than `op`: the left operand
      becomes `(left op y)`. */
  lemma InfixTurn(ts: seq<Token>, s: PState, prec: Precedence, left: Expression)
    requires s.pos + 2 < |ts|
    requires BinaryKind(At(ts, s.pos + 1).Type) && prec < PrecedenceOf(At(ts, s.pos + 1).Type)
    requires At(ts, s.pos).Type != EOF && At(ts, s.pos + 2).Type == IDENT
    requires At(ts, s.pos + 3).Type == SEMICOLON
          || PrecedenceOf(At(ts, s.pos + 3).Type) <= PrecedenceOf(At(ts, s.pos + 1).Type)
    ensures ExprLoop(ts, s, prec, Some(left))
         == ExprLoop(ts, s.(pos := s.pos + 2), prec,
                     Some(InfixExpression(At(ts, s.pos + 1), Some(left), At(ts, s.pos + 1).Literal,
                                          Some(Ident(IdentOf(At(ts, s.pos + 2)))))))
  {
    var op := At(ts, s.pos + 1);
    BinaryBelowPrefix(op.Type);
    var s1 := s.(pos := s.pos + 1);
    var s2 := s.(pos := s.pos + 2);
    assert NextToken(ts, s) == Success(s1);
    IdentifierOperand(ts, s2, PrecedenceOf(op.Type));
    assert ParseInfix(ts, s1, left)
        == Success(Parsed(InfixExpression(op, Some(left), op.Literal, Some(Ident(IdentOf(At(ts, s.pos + 2))))), s2));
  }

  /** The expression loop stops when the peek token does not bind tighter. */
  lemma LoopStops(ts: seq<Token>, s: PState, prec: Precedence, left: Option<Expression>)
    requires Ok(ts, s)
    requires Peek(ts, s).Type == SEMICOLON || PrecedenceOf(Peek(ts, s).Type) <= prec
    ensures ExprLoop(ts, s, prec, left) == Success(Parsed(left, s))
  {
  }

  /** `x o1 y o2 z` groups to the left when `o2` does not bind tighter than
      `o1`. */
  lemma LeftAssociative(ts: seq<Token>, s: PState, o1: Token, o2: Token)
    requires Ok(ts, s)
    requires Cur(ts, s).Type == IDENT && At(ts, s.pos + 2).Type == IDENT && At(ts, s.pos + 4).Type == IDENT
    requires At(ts, s.pos + 1) == o1 && At(ts, s.pos + 3) == o2 && BinaryKind(o1.Type) && BinaryKind(o2.Type)
    requires PrecedenceOf(o2.Type) <= PrecedenceOf(o1.Type)
    requires PrecedenceOf(At(ts, s.pos + 5).Type) == LOWEST
    ensures ParseExpression(ts, s, LOWEST)
         == Success(Parsed(Some(InfixExpression(o2, Some(InfixExpression(o1, Some(Ident(IdentOf(Cur(ts, s)))), o1.Literal,
                                                                           Some(Ident(IdentOf(At(ts, s.pos + 2)))))),
                                                o2.Literal, Some(Ident(IdentOf(At(ts, s.pos + 4)))))),
                           s.(pos := s.pos + 4)))
  {
    var p := s.pos;
    var x, y, z := Ident(IdentOf(Cur(ts, s))), Ident(IdentOf(At(ts, p + 2))), Ident(IdentOf(At(ts, p + 4)));
    BinaryBelowPrefix(o1.Type);
    BinaryBelowPrefix(o2.Type);
    var xy := InfixExpression(o1, Some(x), o1.Literal, Some(y));
    var xyz := InfixExpression(o2, Some(xy), o2.Literal, Some(z));
    assert ParsePrefix(ts, s) == Success(Parsed(Some(x), s));
    assert ParseExpression(ts, s, LOWEST) == ExprLoop(ts, s, LOWEST, Some(x));
    InfixTurn(ts, s, LOWEST, x);
    InfixTurn(ts, s.(pos := p + 2), LOWEST, xy);
    LoopStops(ts, s.(pos := p + 4), LOWEST, Some(xyz));
  }

  /** `x o1 y o2 z` groups to the right when `o2` binds tighter than `o1`. */
  lemma TighterGroupsRight(ts: seq<Token>, s: PState, o1: Token, o2: Token)
    requires Ok(ts, s)
    requires Cur(ts, s).Type == IDENT && At(ts, s.pos + 2).Type == IDENT && At(ts, s.pos + 4).Type == IDENT
    requires At(ts, s.pos + 1) == o1 && At(ts, s.pos + 3) == o2 && BinaryKind(o1.Type) && BinaryKind(o2.Type)
    requires PrecedenceOf(o1.Type) < PrecedenceOf(o2.Type)
    requires PrecedenceOf(At(ts, s.pos + 5).Type) == LOWEST
    ensures ParseExpression(ts, s, LOWEST)
         == Success(Parsed(Some(InfixExpression(o1, Some(Ident(IdentOf(Cur(ts, s)))), o1.Literal,
                                                Some(InfixExpression(o2, Some(Ident(IdentOf(At(ts, s.pos + 2)))), o2.Literal,
                                                                     Some(Ident(IdentOf(At(ts, s.pos + 4)))))))),
                           s.(pos := s.pos + 4)))
  {
    var p := s.pos;
    var x, y, z := Ident(IdentOf(Cur(ts, s))), Ident(IdentOf(At(ts, p + 2))), Ident(IdentOf(At(ts, p + 4)));
    BinaryBelowPrefix(o1.Type);
    BinaryBelowPrefix(o2.Type);
    var yz := InfixExpression(o2, Some(y), o2.Literal, Some(z));
    var xyz := InfixExpression(o1, Some(x), o1.Literal, Some(yz));
    var s1, s2, s4 := s.(pos := p + 1), s.(pos := p + 2), s.(pos := p + 4);
    // the right operand of o1, parsed at o1's precedence, takes in `y o2 z`
    assert ParsePrefix(ts, s2) == Success(Parsed(Some(y), s2));
    assert ParseExpression(ts, s2, PrecedenceOf(o1.Type)) == ExprLoop(ts, s2, PrecedenceOf(o1.Type), Some(y));
    InfixTurn(ts, s2, PrecedenceOf(o1.Type), y);
    LoopStops(ts, s4, PrecedenceOf(o1.Type), Some(yz));
    assert ParseInfix(ts, s1, x) == Success(Parsed(xyz, s4));
    assert ParsePrefix(ts, s) == Success(Parsed(Some(x), s));
    assert NextToken(ts, s) == Success(s1);
    assert ExprLoop(ts, s, LOWEST, Some(x)) == ExprLoop(ts, s4, LOWEST, Some(xyz));
    LoopStops(ts, s4, LOWEST, Some(xyz));
  }

  /** A prefix operator takes only the operand right after it: `op x o y`
      is `((op x) o y)` for every binary `o`. */
  lemma PrefixBindsTighter(ts: seq<Token>, s: PState, op: Token, x: Token, o: Token, y: Token)
    requires s.pos + 4 <= |ts| && ts[s.pos..s.pos + 4] == [op, x, o, y]
    requires (op.Type == BANG || op.Type == MINUS) && x.Type == IDENT && y.Type == IDENT
    requires BinaryKind(o.Type)
    requires PrecedenceOf(At(ts, s.pos + 4).Type) == LOWEST
    ensures ParseExpression(ts, s, LOWEST)
         == Success(Parsed(Some(InfixExpression(o, Some(PrefixExpression(op, op.Literal, Some(Ident(IdentOf(x))))),
                                                o.Literal, Some(Ident(IdentOf(y))))),
                           s.(pos := s.pos + 3)))
  {
    var p := s.pos;
    assert ts[p] == op && ts[p + 1] == x && ts[p + 2] == o && ts[p + 3] == y;
    BinaryBelowPrefix(o.Type);
    var s1 := s.(pos := p + 1);
    var neg := PrefixExpression(op, op.Literal, Some(Ident(IdentOf(x))));
    IdentifierOperand(ts, s1, PREFIX);
    assert ParsePrefix(ts, s) == Success(Parsed(Some(neg), s1));
    InfixTurn(ts, s1, LOWEST, neg);
    LoopStops(ts, s.(pos := p + 3), LOWEST, Some(InfixExpression(o, Some(neg), o.Literal, Some(Ident(IdentOf(y))))));
  }

  /** How the groupings render: every binary operation gets its own
      parentheses, so `a + b + c` prints as `((a + b) + c)` and `-a * b` as
      `((-a) * b)`. */
  lemma GroupingRenders(a: Token, b: Token, c: Token, plus: Token, minus: Token, times: Token)
    requires plus == Token(PLUS, "+") && minus == Token(MINUS, "-") && times == Token(ASTERISK, "*")
    requires a == Token(IDENT, "a") && b == Token(IDENT, "b") && c == Token(IDENT, "c")
    ensures ExprString(InfixExpression(plus, Some(InfixExpression(plus, Some(Ident(IdentOf(a))), "+", Some(Ident(IdentOf(b))))),
                                       "+", Some(Ident(IdentOf(c)))))
         == "((a + b) + c)"
    ensures ExprString(InfixExpression(times, Some(PrefixExpression(minus, "-", Some(Ident(IdentOf(a))))),
                                       "*", Some(Ident(IdentOf(b)))))
         == "((-a) * b)"
  {
    assert ExprString(InfixExpression(plus, Some(Ident(IdentOf(a))), "+", Some(Ident(IdentOf(b))))) == "(a + b)";
    assert ExprString(PrefixExpression(minus, "-", Some(Ident(IdentOf(a))))) == "(-a)";
  }

  /** A group whose `)` is missing is null, with the peek error recorded. */
  lemma GroupWithoutClose(ts: seq<Token>, s: PState, e: Option<Expression>, inner: PState)
    requires Ok(ts, s) && Cur(ts, s).Type == LPAREN
    requires ParseExpression(ts, s.(pos := s.pos + 1), LOWEST) == Success(Parsed(e, inner))
    requires Peek(ts, inner).Type != RPAREN
    ensures ParseGrouped(ts, s)
         == Success(Parsed(None, inner.(errors := inner.errors + [PeekErrorMessage(RPAREN, Peek(ts, inner).Type)])))
  {
  }

  /** `let` not followed by an identifier yields no statement and one error;
      nothing is consumed. */
  lemma LetWithoutName(ts: seq<Token>, s: PState)
    requires Ok(ts, s) && Cur(ts, s).Type == LET && Peek(ts, s).Type != IDENT
    ensures ParseStatement(ts, s)
         == Success(Parsed(None, s.(errors := s.errors + [PeekErrorMessage(IDENT, Peek(ts, s).Type)])))
  {
  }

  /** `let x` not followed by `=` yields no statement and one error, with the
      name consumed. */
  lemma LetWithoutAssign(ts: seq<Token>, s: PState)
    requires Ok(ts, s) && Cur(ts, s).Type == LET && Peek(ts, s).Type == IDENT
    requires At(ts, s.pos + 2).Type != ASSIGN
    ensures ParseStatement(ts, s)
         == Success(Parsed(None, PState(s.pos + 1, s.errors + [PeekErrorMessage(ASSIGN, At(ts, s.pos + 2).Type)])))
  {
    assert Expect(ts, s, IDENT) == Step(true, s.(pos := s.pos + 1));
  }

  /** `if` with no `(` after it is null; when an operator follows, the loop
      then meets the null left operand and the run aborts (`Got null left`). */
  lemma NullLeftAborts()
    ensures ParseProgram([Token(IF, "if"), Token(PLUS, "+"), Token(INT, "1")]) == Failure(NullLeft)
  {
    var ts := [Token(IF, "if"), Token(PLUS, "+"), Token(INT, "1")];
    var s0 := Start;
    assert Cur(ts, s0) == Token(IF, "if");
    assert Peek(ts, s0) == Token(PLUS, "+");
    assert Expect(ts, s0, LPAREN) == Step(false, s0.(errors := [PeekErrorMessage(LPAREN, PLUS)]));
    assert ParseIf(ts, s0) == Success(Parsed(None, s0.(errors := [PeekErrorMessage(LPAREN, PLUS)])));
    var s1 := s0.(errors := [PeekErrorMessage(LPAREN, PLUS)]);
    assert ParsePrefix(ts, s0) == Success(Parsed(None, s1));
    assert NextToken(ts, s1) == Success(s1.(pos := 1));
    assert ExprLoop(ts, s1, LOWEST, None) == Failure(NullLeft);
    assert ParseExpression(ts, s0, LOWEST) == Failure(NullLeft);
    assert ParseStatement(ts, s0) == Failure(NullLeft);
  }

  /** A block left open at the end of input ends on EOF, and the program loop
      then advances past EOF: the run aborts (`Reached EOF`). */
  lemma UnclosedBlockAborts()
    ensures ParseProgram([Token(IF, "if"), Token(LPAREN, "("), Token(IDENT, "x"), Token(RPAREN, ")"), Token(LBRACE, "{")])
         == Failure(ReachedEof)
  {
    var ts := [Token(IF, "if"), Token(LPAREN, "("), Token(IDENT, "x"), Token(RPAREN, ")"), Token(LBRACE, "{")];
    var x := Token(IDENT, "x");
    IdentifierOperand(ts, PState(2, []), LOWEST);
    var block := BlockStatement(Token(LBRACE, "{"), []);
    assert ParseBlock(ts, PState(4, [])) == Success(Parsed(block, PState(5, [])));
    var ifx := IfExpression(Token(IF, "if"), Some(Ident(IdentOf(x))), Some(block), None);
    assert IfAlternative(ts, PState(5, []), Token(IF, "if"), Some(Ident(IdentOf(x))), block)
        == Success(Parsed(Some(ifx), PState(5, [])));
    assert IfCondition(ts, PState(2, []), Token(IF, "if")) == Success(Parsed(Some(ifx), PState(5, [])));
    assert ParseIf(ts, Start) == Success(Parsed(Some(ifx), PState(5, [])));
    assert ParseExpression(ts, Start, LOWEST) == Success(Parsed(Some(ifx), PState(5, [])));
    assert ParseStatement(ts, Start) == Success(Parsed(Some(ExpressionStatement(Token(IF, "if"), Some(ifx))), PState(5, [])));
  }

  /** `let x = 5;` parses to one let statement without errors. */
  lemma LetProgram()
    ensures ParseProgram([Token(LET, "let"), Token(IDENT, "x"), Token(ASSIGN, "="), Token(INT, "5"), Token(SEMICOLON, ";")])
         == Success(Parsed(Program([LetStatement(Token(LET, "let"), Some(Identifier(Token(IDENT, "x"), "x")),
                                                 Some(IntegerLiteral(Token(INT, "5"), 5)))]),
                           PState(5, [])))
  {
    var ts := [Token(LET, "let"), Token(IDENT, "x"), Token(ASSIGN, "="), Token(INT, "5"), Token(SEMICOLON, ";")];
    assert Numbers.DigitsValue("5") == 5;
    var five := IntegerLiteral(Token(INT, "5"), 5);
    assert ParsePrefix(ts, PState(3, [])) == Success(Parsed(Some(five), PState(3, [])));
    assert ParseExpression(ts, PState(3, []), LOWEST) == Success(Parsed(Some(five), PState(3, [])));
    assert ExprLoop(ts, PState(3, []), LOWEST, Some(five)) == Success(Parsed(Some(five), PState(3, [])));
    assert SkipSemicolon(ts, PState(3, [])) == Success(PState(4, []));
    assert Expect(ts, Start, IDENT) == Step(true, PState(1, []));
    assert Expect(ts, PState(1, []), ASSIGN) == Step(true, PState(2, []));
    var let := LetStatement(Token(LET, "let"), Some(Identifier(Token(IDENT, "x"), "x")), Some(five));
    assert ParseLet(ts, Start) == Success(Parsed(Some(let), PState(4, [])));
    assert ParseStatement(ts, Start) == Success(Parsed(Some(let), PState(4, [])));
    assert NextToken(ts, PState(4, [])) == Success(PState(5, []));
    assert Cur(ts, Start).Type != EOF;
    assert [] + OptList(Some(let)) == [let];
    assert ProgramLoop(ts, Start, []) == ProgramLoop(ts, PState(5, []), [let]);
    assert ProgramLoop(ts, PState(5, []), [let]) == Success(Parsed(Program([let]), PState(5, [])));
  }

  /** `!5` and `-15` each parse to one prefix expression statement over the
      integer, without errors. */
  lemma PrefixPrograms(op: Token, digits: string, value: nat)
    requires op == Token(BANG, "!") || op == Token(MINUS, "-")
    requires (digits, value) == ("5", 5) || (digits, value) == ("15", 15)
    ensures ParseProgram([op, Token(INT, digits)])
         == Success(Parsed(Program([ExpressionStatement(op, Some(PrefixExpression(op, op.Literal,
                                                                                 Some(IntegerLiteral(Token(INT, digits), value)))))]),
                           PState(2, [])))
  {
    var ts := [op, Token(INT, digits)];
    assert Numbers.DigitsValue(digits) == value by {
      assert digits[..|digits| - 1] == if digits == "5" then "" else "1";
      if digits == "15" {
        assert "1"[..0] == "";
      }
    }
    var lit := IntegerLiteral(Token(INT, digits), value);
    assert ParsePrefix(ts, PState(1, [])) == Success(Parsed(Some(lit), PState(1, [])));
    assert ParseExpression(ts, PState(1, []), PREFIX) == Success(Parsed(Some(lit), PState(1, [])));
    var pre := PrefixExpression(op, op.Literal, Some(lit));
    assert ParsePrefix(ts, Start) == Success(Parsed(Some(pre), PState(1, [])));
    assert ParseExpression(ts, Start, LOWEST) == Success(Parsed(Some(pre), PState(1, [])));
    assert ExprLoop(ts, PState(1, []), LOWEST, Some(pre)) == Success(Parsed(Some(pre), PState(1, [])));
    assert ParseExpression(ts, Start, LOWEST) == Success(Parsed(Some(pre), PState(1, [])));
    assert SkipSemicolon(ts, PState(1, [])) == Success(PState(1, []));
    var stmt := ExpressionStatement(op, Some(pre));
    assert ParseStatement(ts, Start) == Success(Parsed(Some(stmt), PState(1, [])));
    assert NextToken(ts, PState(1, [])) == Success(PState(2, []));
    assert Cur(ts, Start).Type != EOF;
    assert [] + OptList(Some(stmt)) == [stmt];
    assert ProgramLoop(ts, Start, []) == ProgramLoop(ts, PState(2, []), [stmt]);
    assert ProgramLoop(ts, PState(2, []), [stmt]) == Success(Parsed(Program([stmt]), PState(2, [])));
  }

  /** `{` directly followed by `}` is the empty block, and the parse stops on
      the `}`. */
  lemma EmptyBlock(ts: seq<Token>, s: PState)
    requires Ok(ts, s) && Cur(ts, s).Type == LBRACE && Peek(ts, s).Type == RBRACE
    ensures ParseBlock(ts, s) == Success(Parsed(BlockStatement(Cur(ts, s), []), s.(pos := s.pos + 1)))
    ensures Cur(ts, s.(pos := s.pos + 1)).Type == RBRACE
  {
  }

  /** The `;` after a statement is optional: `let x = 5` and `let x = 5;`
      give the same program, both without errors. */
  lemma LetSemicolonOptional()
    ensures var bare := ParseProgram([Token(LET, "let"), Token(IDENT, "x"), Token(ASSIGN, "="), Token(INT, "5")]);
            var closed := ParseProgram([Token(LET, "let"), Token(IDENT, "x"), Token(ASSIGN, "="), Token(INT, "5"),
                                        Token(SEMICOLON, ";")]);
            bare.Success? && closed.Success? && bare.value.node == closed.value.node
            && bare.value.st.errors == [] && closed.value.st.errors == []
  {
    LetProgram();
    var ts := [Token(LET, "let"), Token(IDENT, "x"), Token(ASSIGN, "="), Token(INT, "5")];
    assert Numbers.DigitsValue("5") == 5;
    var five := IntegerLiteral(Token(INT, "5"), 5);
    assert ParsePrefix(ts, PState(3, [])) == Success(Parsed(Some(five), PState(3, [])));
    assert ParseExpression(ts, PState(3, []), LOWEST) == Success(Parsed(Some(five), PState(3, [])));
    assert SkipSemicolon(ts, PState(3, [])) == Success(PState(3, []));
    assert Expect(ts, Start, IDENT) == Step(true, PState(1, []));
    assert Expect(ts, PState(1, []), ASSIGN) == Step(true, PState(2, []));
    var let := LetStatement(Token(LET, "let"), Some(Identifier(Token(IDENT, "x"), "x")), Some(five));
    assert ParseStatement(ts, Start) == Success(Parsed(Some(let), PState(3, [])));
    assert NextToken(ts, PState(3, [])) == Success(PState(4, []));
    assert [] + OptList(Some(let)) == [let];
    assert ProgramLoop(ts, Start, []) == ProgramLoop(ts, PState(4, []), [let]);
  }

  /** A call whose `)` is missing has null arguments, with the peek error
      recorded. */
  lemma CallWithoutClose(ts: seq<Token>, s: PState, left: Expression, first: Parsed<Option<Expression>>,
                         all: Parsed<seq<Option<Expression>>>)
    requires Ok(ts, s) && Cur(ts, s).Type == LPAREN && Peek(ts, s).Type != RPAREN
    requires ParseExpression(ts, s.(pos := s.pos + 1), LOWEST) == Success(first)
    requires ArgsLoop(ts, first.st, [first.node]) == Success(all)
    requires Peek(ts, all.st).Type != RPAREN
    ensures ParseInfix(ts, s, left)
         == Success(Parsed(CallExpression(Cur(ts, s), Some(left), None),
                           all.st.(errors := all.st.errors + [PeekErrorMessage(RPAREN, Peek(ts, all.st).Type)])))
  {
    assert ParseCallArgs(ts, s)
        == Success(Parsed(None, all.st.(errors := all.st.errors + [PeekErrorMessage(RPAREN, Peek(ts, all.st).Type)])));
  }

  /** A program loop result with `acc` put in front of its statements. */
  function Prepend(acc: seq<Statement>, r: Outcome<Program>): Outcome<Program> {
    match r
    case Failure(f) => Failure(f)
    case Success(p) => Success(Parsed(Program(acc + p.node.statements), p.st))
  }

  /** One turn of the program loop, for any statements collected before it. */
  lemma ProgramLoopStep(ts: seq<Token>, s: PState, acc: seq<Statement>,
                        st: Parsed<Option<Statement>>, s1: PState)
    requires Ok(ts, s) && Cur(ts, s).Type != EOF
    requires ParseStatement(ts, s) == Success(st) && NextToken(ts, st.st) == Success(s1)
    ensures Ok(ts, s1) && Remaining(ts, s1) < Remaining(ts, s)
    ensures ProgramLoop(ts, s, acc) == ProgramLoop(ts, s1, acc + OptList(st.node))
  {
  }

  /** Prepending twice is prepending the two lists joined. */
  lemma PrependTwice(acc: seq<Statement>, one: seq<Statement>, r: Outcome<Program>)
    ensures Prepend(acc, Prepend(one, r)) == Prepend(acc + one, r)
  {
    if r.Success? {
      assert acc + (one + r.value.node.statements) == acc + one + r.value.node.statements;
    }
  }

  /** The statements already collected stay in front, in order: the program
      loop from `acc` is the loop from nothing with `acc` put in front. */
  lemma {:induction false} ProgramLoopAppends(ts: seq<Token>, s: PState, acc: seq<Statement>)
    requires Ok(ts, s)
    ensures ProgramLoop(ts, s, acc) == Prepend(acc, ProgramLoop(ts, s, []))
    decreases Remaining(ts, s)
  {
    if Cur(ts, s).Type != EOF {
      var st := ParseStatement(ts, s);
      if st.Success? {
        var s1 := NextToken(ts, st.value.st);
        if s1.Success? {
          var one := OptList(st.value.node);
          ProgramLoopStep(ts, s, acc, st.value, s1.value);
          ProgramLoopStep(ts, s, [], st.value, s1.value);
          assert [] + one == one;
          ProgramLoopAppends(ts, s1.value, acc + one);
          ProgramLoopAppends(ts, s1.value, one);
          PrependTwice(acc, one, ProgramLoop(ts, s1.value, []));
          calc {
            ProgramLoop(ts, s, acc);
            ProgramLoop(ts, s1.value, acc + one);
            Prepend(acc + one, ProgramLoop(ts, s1.value, []));
            Prepend(acc, Prepend(one, ProgramLoop(ts, s1.value, [])));
            Prepend(acc, ProgramLoop(ts, s1.value, one));
            Prepend(acc, ProgramLoop(ts, s, []));
          }
        }
      }
    } else {
      assert acc + [] == acc;
    }
  }

  /** The same for the statements of a block. */
  function PrependBlock(acc: seq<Statement>, r: Outcome<BlockStatement>): Outcome<BlockStatement> {
    match r
    case Failure(f) => Failure(f)
    case Success(b) => Success(Parsed(BlockStatement(b.node.token, acc + b.node.statements), b.st))
  }

  /** One turn of the block loop, for any statements collected before it. */
  lemma BlockLoopStep(ts: seq<Token>, s: PState, tok: Token, acc: seq<Statement>,
                      st: Parsed<Option<Statement>>, s1: PState)
    requires Ok(ts, s) && Cur(ts, s).Type != RBRACE && Cur(ts, s).Type != EOF
    requires ParseStatement(ts, s) == Success(st) && NextToken(ts, st.st) == Success(s1)
    ensures Ok(ts, s1) && Remaining(ts, s1) < Remaining(ts, s)
    ensures BlockLoop(ts, s, tok, acc) == BlockLoop(ts, s1, tok, acc + OptList(st.node))
  {
  }

  /** Prepending twice is prepending the two lists joined. */
  lemma PrependBlockTwice(acc: seq<Statement>, one: seq<Statement>, r: Outcome<BlockStatement>)
    ensures PrependBlock(acc, PrependBlock(one, r)) == PrependBlock(acc + one, r)
  {
    if r.Success? {
      assert acc + (one + r.value.node.statements) == acc + one + r.value.node.statements;
    }
  }

  lemma {:induction false} BlockLoopAppends(ts: seq<Token>, s: PState, tok: Token, acc: seq<Statement>)
    requires Ok(ts, s)
    ensures BlockLoop(ts, s, tok, acc) == PrependBlock(acc, BlockLoop(ts, s, tok, []))
    decreases Remaining(ts, s)
  {
    var k := Cur(ts, s).Type;
    if k != RBRACE && k != EOF {
      var st := ParseStatement(ts, s);
      if st.Success? {
        var s1 := NextToken(ts, st.value.st);
        if s1.Success? {
          var one := OptList(st.value.node);
          BlockLoopStep(ts, s, tok, acc, st.value, s1.value);
          BlockLoopStep(ts, s, tok, [], st.value, s1.value);
          assert [] + one == one;
          BlockLoopAppends(ts, s1.value, tok, acc + one);
          BlockLoopAppends(ts, s1.value, tok, one);
          PrependBlockTwice(acc, one, BlockLoop(ts, s1.value, tok, []));
          calc {
            BlockLoop(ts, s, tok, acc);
            BlockLoop(ts, s1.value, tok, acc + one);
            PrependBlock(acc + one, BlockLoop(ts, s1.value, tok, []));
            PrependBlock(acc, PrependBlock(one, BlockLoop(ts, s1.value, tok, [])));
            PrependBlock(acc, BlockLoop(ts, s1.value, tok, one));
            PrependBlock(acc, BlockLoop(ts, s, tok, []));
          }
        }
      }
    } else {
      assert acc + [] == acc;
    }
  }

  /** A statement rule that yields null adds nothing to the program: the
      loop goes on past it with the statements it had. */
  lemma NullStatementDropped(ts: seq<Token>, s: PState, st: PState, acc: seq<Statement>)
    requires Ok(ts, s) && Cur(ts, s).Type != EOF
    requires ParseStatement(ts, s) == Success(Parsed(None, st)) && Cur(ts, st).Type != EOF
    ensures ProgramLoop(ts, s, acc) == ProgramLoop(ts, st.(pos := st.pos + 1), acc)
  {
    assert acc + OptList(None) == acc;
  }

  /** Each error message spells out the kinds or the literal it is about,
      in the fixed frame of words the code writes around them. */
  lemma MessageShapes(t: TokenType, got: TokenType, k: TokenType, literal: string)
    ensures var m := PeekErrorMessage(t, got);
      m[..10] == "Expected '" && m[10..10 + |t|] == t && m[10 + |t|..16 + |t|] == "' got " && m[|m| - |got|..] == got
    ensures var m := NoPrefixMessage(k);
      m[..35] == "No prefix parse function found for " && m[35..] == k
    ensures var m := InvalidIntegerMessage(literal);
      m[..17] == "Invalid literal '" && m[17..|m| - 17] == literal && m[|m| - 17..] == "': expcting 'int'"
  {
  }

  /** The three kinds of parser error message can never be confused: they
      already differ in their first character. */
  lemma MessagesDistinct(t: TokenType, got: TokenType, k: TokenType, literal: string)
    ensures PeekErrorMessage(t, got) != NoPrefixMessage(k)
    ensures PeekErrorMessage(t, got) != InvalidIntegerMessage(literal)
    ensures NoPrefixMessage(k) != InvalidIntegerMessage(literal)
  {
    assert PeekErrorMessage(t, got)[0] == 'E';
    assert NoPrefixMessage(k)[0] == 'N';
    assert InvalidIntegerMessage(literal)[0] == 'I';
  }

  /** `tokenLiteral()` of what the prefix rules build: a leaf or a prefix
      operator answers the literal of the token it was parsed from, while a
      function literal answers "", because its token is never set. */
  lemma ParsedTokenLiteral(ts: seq<Token>, s: PState)
    requires Ok(ts, s) && Cur(ts, s).Type in PrefixKinds
    ensures var r := ParsePrefix(ts, s);
      r.Success? && r.value.node.Some? && Cur(ts, s).Type in [IDENT, INT, TRUE, FALSE, BANG, MINUS] ==>
        ExprTokenLiteral(r.value.node.value) == Cur(ts, s).Literal
    ensures var r := ParsePrefix(ts, s);
      r.Success? && r.value.node.Some? && Cur(ts, s).Type == FUNCTION ==>
        ExprTokenLiteral(r.value.node.value) == ""
  {
    var t := Cur(ts, s);
    if t.Type == BANG || t.Type == MINUS {
      var right := ParseExpression(ts, Shift(ts, s), PREFIX);
      if right.Success? {
        assert ParsePrefix(ts, s) == Success(Parsed(Some(PrefixExpression(t, t.Literal, right.value.node)), right.value.st));
      }
    }
  }

  /** `tokenLiteral()` of every statement the parser builds is the literal of
      the token the statement starts at. */
  lemma StatementTokenLiteral(ts: seq<Token>, s: PState)
    requires Ok(ts, s)
    ensures var r := ParseStatement(ts, s);
      r.Success? && r.value.node.Some? ==> StmtTokenLiteral(r.value.node.value) == Cur(ts, s).Literal
  {
  }
}
