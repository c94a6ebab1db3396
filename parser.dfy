/** The `Parser` class of parser.ts: a cursor of two tokens over a lexer,
    advanced in place, with the error list it appends to. Every method is
    proved to do what the function of the same rule in `ParserSpec` says,
    over the stream of tokens the lexer will hand out. */
module Parsing {
  import opened Wrappers
  import opened Tokens
  import opened Ast
  import Lexer
  import TokenStream
  import Spec = ParserSpec

  class Parser {
    const lex: Lexer.Lexer
    var curToken: Token
    var peekToken: Token
    var errors: seq<string>

    /** Where the lexer's cursor stood when the parser was built, and the
        tokens it hands out from there. */
    ghost const start: nat
    ghost const toks: seq<Token>
    /** The index of `curToken` in `toks`; the lexer has been called `pos + 2` times. */
    ghost var pos: nat

    ghost predicate Valid()
      reads this, lex
    {
      && lex.Valid()
      && toks == TokenStream.Stream(lex.input, start)
      && pos <= |toks|
      && lex.position == Lexer.PositionAfter(lex.input, start, pos + 2)
      && curToken == Spec.At(toks, pos)
      && peekToken == Spec.At(toks, pos + 1)
    }

    ghost function St(): Spec.PState
      reads this
    {
      Spec.PState(pos, errors)
    }

    /** A method's answer is the one of its rule's function, and the new
        state is the one that function leaves. */
    ghost predicate Agrees<T>(r: Result<T, Spec.Fault>, spec: Spec.Outcome<T>)
      reads this
    {
      match spec
      case Failure(f) => r == Failure(f)
      case Success(p) => r == Success(p.node) && St() == p.st
    }

    /** The constructor: two `nextToken` calls from the empty tokens, which
        are not EOF, so neither aborts. */
    constructor (lexer: Lexer.Lexer)
      requires lexer.Valid()
      modifies lexer
      ensures Valid() && lex == lexer && St() == Spec.Start
      ensures toks == TokenStream.Stream(lexer.input, old(lexer.position))
    {
      lex := lexer;
      start := lexer.position;
      toks := TokenStream.Stream(lexer.input, lexer.position);
      curToken := NewToken();
      peekToken := NewToken();
      errors := [];
      pos := 0;
      new;
      var first := lexer.NextToken();
      curToken, peekToken := peekToken, TokenStream.Convert(first);
      var second := lexer.NextToken();
      curToken, peekToken := peekToken, TokenStream.Convert(second);
      TokenStream.PositionAfterStep(lex.input, start, 0);
      TokenStream.PositionAfterStep(lex.input, start, 1);
      TokenStream.StreamAt(lex.input, start, 0);
      TokenStream.StreamAt(lex.input, start, 1);
    }

    /** `nextToken` where the current token is known not to be EOF. */
    method Shift()
      requires Valid() && curToken.Type != EOF
      modifies this, lex
      ensures Valid() && St() == Spec.Shift(toks, old(St()))
    {
      var t := lex.NextToken();
      TokenStream.PositionAfterStep(lex.input, start, pos + 2);
      TokenStream.StreamAt(lex.input, start, pos + 2);
      curToken, peekToken := peekToken, TokenStream.Convert(t);
      pos := pos + 1;
    }

    /** `nextToken`: aborts the run when the current token is EOF. */
    method NextToken() returns (r: Result<(), Spec.Fault>)
      requires Valid()
      modifies this, lex
      ensures Valid()
      ensures match Spec.NextToken(toks, old(St()))
              case Failure(f) => r == Failure(f) && St() == old(St())
              case Success(s) => r.Success? && St() == s
    {
      if curToken.Type == EOF {
        return Failure(Spec.ReachedEof);
      }
      Shift();
      return Success(());
    }

    method PeekError(t: TokenType)
      requires Valid()
      modifies this
      ensures Valid() && St() == old(St()).(errors := old(errors) + [Spec.PeekErrorMessage(t, peekToken.Type)])
    {
      errors := errors + [Spec.PeekErrorMessage(t, peekToken.Type)];
    }

    /** `expectPeek(t)`. */
    method ExpectPeek(t: TokenType) returns (r: Result<bool, Spec.Fault>)
      requires Valid()
      modifies this, lex
      ensures Valid()
      ensures match Spec.ExpectPeek(toks, old(St()), t)
              case Failure(f) => r == Failure(f)
              case Success(step) => r == Success(step.ok) && St() == step.st
    {
      if peekToken.Type != t {
        PeekError(t);
        return Success(false);
      }
      var u :- NextToken();
      return Success(true);
    }

    /** `expectPeek(t)` where the current token is known not to be EOF. */
    method Expect(t: TokenType) returns (ok: bool)
      requires Valid() && curToken.Type != EOF
      modifies this, lex
      ensures Valid() && Spec.Step(ok, St()) == Spec.Expect(toks, old(St()), t)
    {
      if peekToken.Type != t {
        PeekError(t);
        return false;
      }
      Shift();
      return true;
    }

    method ParseIntegerLiteral() returns (e: Option<Expression>)
      requires Valid()
      modifies this
      ensures Valid() && Spec.Parsed(e, St()) == Spec.ParseIntegerLiteral(toks, old(St()))
    {
      var n := Spec.NumberOf(curToken.Literal);
      if n.None? {
        errors := errors + [Spec.InvalidIntegerMessage(curToken.Literal)];
        return None;
      }
      return Some(IntegerLiteral(curToken, n.value));
    }

    /** `parseFunctionParams`. */
    method ParseFunctionParams() returns (r: Result<seq<Identifier>, Spec.Fault>)
      requires Valid() && curToken.Type == LPAREN
      modifies this, lex
      ensures Valid() && Agrees(r, Spec.ParseParams(toks, old(St())))
    {
      ghost var spec := Spec.ParseParams(toks, St());
      assert Spec.Peek(toks, St()) == peekToken;
      if peekToken.Type == RPAREN {
        Shift();
        assert spec == Success(Spec.Parsed([], St()));
        return Success([]);
      }
      Shift();
      var idents := [Spec.IdentOf(curToken)];
      ghost var loop := Spec.ParamsLoop(toks, St(), idents);
      assert loop.Failure? ==> spec == Failure(loop.error);
      while peekToken.Type == COMMA
        invariant Valid()
        invariant Spec.ParamsLoop(toks, St(), idents) == loop
        decreases |toks| - pos
      {
        assert Spec.Peek(toks, St()) == peekToken;
        var u := NextToken();
        if u.Failure? {
          assert loop == Failure(Spec.ReachedEof);
          return Failure(u.error);
        }
        Shift();
        idents := idents + [Spec.IdentOf(curToken)];
      }
      assert Spec.Peek(toks, St()) == peekToken;
      assert loop == Success(Spec.Parsed(idents, St()));
      var ok := ExpectPeek(RPAREN);
      if ok.Failure? {
        return Failure(ok.error);
      }
      assert spec == Success(Spec.Parsed(idents, St()));
      return Success(idents);
    }

    /** The prefix rule registered for the current kind. */
    method ParsePrefix() returns (r: Result<Option<Expression>, Spec.Fault>)
      requires Valid() && curToken.Type in Spec.PrefixKinds
      modifies this, lex
      ensures Valid() && Agrees(r, Spec.ParsePrefix(toks, old(St())))
      decreases |toks| - pos, 2
    {
      var t := curToken;
      if t.Type == IDENT {
        r := Success(Some(Ident(Spec.IdentOf(t))));
      } else if t.Type == INT {
        var e := ParseIntegerLiteral();
        r := Success(e);
      } else if t.Type == BANG || t.Type == MINUS {
        r := ParsePrefixExpression();
      } else if t.Type == TRUE || t.Type == FALSE {
        r := Success(Some(BooleanExpression(t, t.Literal == "true")));
      } else if t.Type == LPAREN {
        r := ParseGrouped();
      } else if t.Type == IF {
        r := ParseIfExpression();
      } else {
        r := ParseFunctionLiteral();
      }
    }

    /** `parseFunctionLiteral`. */
    method ParseFunctionLiteral() returns (r: Result<Option<Expression>, Spec.Fault>)
      requires Valid() && curToken.Type == FUNCTION
      modifies this, lex
      ensures Valid() && Agrees(r, Spec.ParseFunctionLiteral(toks, old(St())))
      decreases |toks| - pos, 1
    {
      var ok := Expect(LPAREN);
      if !ok {
        return Success(None);
      }
      var params :- ParseFunctionParams();
      ok :- ExpectPeek(LBRACE);
      if !ok {
        return Success(None);
      }
      var body :- ParseBlockStatement();
      return Success(Some(FunctionLiteral(NewToken(), params, Some(body))));
    }

    /** `parsePrefixExpression`. */
    method ParsePrefixExpression() returns (r: Result<Option<Expression>, Spec.Fault>)
      requires Valid() && (curToken.Type == BANG || curToken.Type == MINUS)
      modifies this, lex
      ensures Valid() && Agrees(r, Spec.ParsePrefixExpression(toks, old(St())))
      decreases |toks| - pos, 1
    {
      var t := curToken;
      Shift();
      var right :- ParseExpression(Spec.PREFIX);
      return Success(Some(PrefixExpression(t, t.Literal, right)));
    }

    /** `parseInfixExpression`. */
    method ParseInfixExpression(left: Expression) returns (r: Result<Expression, Spec.Fault>)
      requires Valid() && curToken.Type in Spec.Precedences && curToken.Type != LPAREN
      modifies this, lex
      ensures Valid() && Agrees(r, Spec.ParseInfix(toks, old(St()), left))
      decreases |toks| - pos, 1
    {
      var t := curToken;
      var precedence := Spec.PrecedenceOf(t.Type);
      Shift();
      var right :- ParseExpression(precedence);
      return Success(InfixExpression(t, Some(left), t.Literal, right));
    }

    /** `parseiGroupedLiteral`. */
    method ParseGrouped() returns (r: Result<Option<Expression>, Spec.Fault>)
      requires Valid() && curToken.Type == LPAREN
      modifies this, lex
      ensures Valid() && Agrees(r, Spec.ParseGrouped(toks, old(St())))
      decreases |toks| - pos, 1
    {
      Shift();
      var e :- ParseExpression(Spec.LOWEST);
      var ok :- ExpectPeek(RPAREN);
      if !ok {
        return Success(None);
      }
      return Success(e);
    }

    /** `parseIfExpression`. */
    method ParseIfExpression() returns (r: Result<Option<Expression>, Spec.Fault>)
      requires Valid() && curToken.Type == IF
      modifies this, lex
      ensures Valid() && Agrees(r, Spec.ParseIf(toks, old(St())))
      decreases |toks| - pos, 1
    {
      var t := curToken;
      var ok := Expect(LPAREN);
      if !ok {
        return Success(None);
      }
      Shift();
      r := ParseIfCondition(t);
    }

    /** The part of `parseIfExpression` from the condition to the consequence. */
    method ParseIfCondition(t: Token) returns (r: Result<Option<Expression>, Spec.Fault>)
      requires Valid()
      modifies this, lex
      ensures Valid() && Agrees(r, Spec.IfCondition(toks, old(St()), t))
      decreases |toks| - pos, 4
    {
      var cond :- ParseExpression(Spec.LOWEST);
      var ok :- ExpectPeek(RPAREN);
      if !ok {
        return Success(None);
      }
      ok := Expect(LBRACE);
      if !ok {
        return Success(None);
      }
      var cons :- ParseBlockStatement();
      r := ParseIfAlternative(t, cond, cons);
    }

    /** The optional `else` block of `parseIfExpression`. */
    method ParseIfAlternative(t: Token, cond: Option<Expression>, cons: BlockStatement)
      returns (r: Result<Option<Expression>, Spec.Fault>)
      requires Valid()
      modifies this, lex
      ensures Valid() && Agrees(r, Spec.IfAlternative(toks, old(St()), t, cond, cons))
      decreases |toks| - pos, 0
    {
      if peekToken.Type == ELSE {
        var u :- NextToken();
        var ok := Expect(LBRACE);
        if !ok {
          return Success(None);
        }
        var alt :- ParseBlockStatement();
        return Success(Some(IfExpression(t, cond, Some(cons), Some(alt))));
      }
      return Success(Some(IfExpression(t, cond, Some(cons), None)));
    }

    /** `parseCallExpression`. */
    method ParseCallExpression(callee: Expression) returns (r: Result<Expression, Spec.Fault>)
      requires Valid() && curToken.Type == LPAREN
      modifies this, lex
      ensures Valid() && Agrees(r, Spec.ParseInfix(toks, old(St()), callee))
      decreases |toks| - pos, 1
    {
      var t := curToken;
      var args :- ParseCallArgs();
      return Success(CallExpression(t, Some(callee), args));
    }

    /** `parseCallArgs`. */
    method ParseCallArgs() returns (r: Result<Option<Arguments>, Spec.Fault>)
      requires Valid() && curToken.Type == LPAREN
      modifies this, lex
      ensures Valid() && Agrees(r, Spec.ParseCallArgs(toks, old(St())))
      decreases |toks| - pos, 0
    {
      if peekToken.Type == RPAREN {
        Shift();
        return Success(Some(Arguments([])));
      }
      Shift();
      var first :- ParseExpression(Spec.LOWEST);
      var args :- ParseMoreArgs([first]);
      var ok :- ExpectPeek(RPAREN);
      if !ok {
        return Success(None);
      }
      return Success(Some(Arguments(args)));
    }

    /** The `while (peekTokenIs(COMMA))` loop of `parseCallArgs`. */
    method ParseMoreArgs(acc: seq<Option<Expression>>) returns (r: Result<seq<Option<Expression>>, Spec.Fault>)
      requires Valid()
      modifies this, lex
      ensures Valid() && Agrees(r, Spec.ArgsLoop(toks, old(St()), acc))
      decreases |toks| - pos, 0
    {
      var args := acc;
      ghost var s0 := St();
      while peekToken.Type == COMMA
        invariant Valid() && old(pos) <= pos
        invariant Spec.ArgsLoop(toks, St(), args) == Spec.ArgsLoop(toks, s0, acc)
        decreases |toks| - pos
      {
        var u :- NextToken();
        Shift();
        var e :- ParseExpression(Spec.LOWEST);
        args := args + [e];
      }
      return Success(args);
    }

    /** `getErrors`. */
    method GetErrors() returns (errs: seq<string>)
      ensures errs == errors
    {
      errs := errors;
    }

    /** `parseProgram`: statements up to EOF, each followed by one
        `nextToken`; the null ones are dropped. */
    method ParseProgram() returns (r: Result<Program, Spec.Fault>)
      requires Valid()
      modifies this, lex
      ensures Valid() && Agrees(r, Spec.ProgramLoop(toks, old(St()), []))
    {
      var stmts: seq<Statement> := [];
      ghost var s0 := St();
      while curToken.Type != EOF
        invariant Valid()
        invariant Spec.ProgramLoop(toks, St(), stmts) == Spec.ProgramLoop(toks, s0, [])
        decreases |toks| - pos
      {
        ghost var s, acc := St(), stmts;
        var stmt :- ParseStatement();
        if stmt.Some? {
          stmts := stmts + [stmt.value];
        }
        assert stmts == acc + Spec.OptList(stmt);
        var u :- NextToken();
        assert Spec.ProgramLoop(toks, s, acc) == Spec.ProgramLoop(toks, St(), stmts);
      }
      return Success(Program(stmts));
    }

    /** `parseStatement`. */
    method ParseStatement() returns (r: Result<Option<Statement>, Spec.Fault>)
      requires Valid()
      modifies this, lex
      ensures Valid() && Agrees(r, Spec.ParseStatement(toks, old(St())))
      decreases |toks| - pos, 5
    {
      if curToken.Type == LET {
        r := ParseLetStatement();
      } else if curToken.Type == RETURN {
        r := ParseReturnStatement();
      } else {
        r := ParseExpressionStatement();
      }
    }

    /** `parseLetStatement`. */
    method ParseLetStatement() returns (r: Result<Option<Statement>, Spec.Fault>)
      requires Valid() && curToken.Type == LET
      modifies this, lex
      ensures Valid() && Agrees(r, Spec.ParseLet(toks, old(St())))
      decreases |toks| - pos, 4
    {
      var t := curToken;
      var ok := Expect(IDENT);
      if !ok {
        return Success(None);
      }
      var name := Spec.IdentOf(curToken);
      ok := Expect(ASSIGN);
      if !ok {
        return Success(None);
      }
      Shift();
      var value :- ParseExpression(Spec.LOWEST);
      var u :- SkipSemicolon();
      return Success(Some(LetStatement(t, Some(name), value)));
    }

    /** The trailing `if (this.peekTokenIs(SEMICOLON)) this.nextToken()` of
        the three statement rules. */
    method SkipSemicolon() returns (r: Result<(), Spec.Fault>)
      requires Valid()
      modifies this, lex
      ensures Valid()
      ensures match Spec.SkipSemicolon(toks, old(St()))
              case Failure(f) => r == Failure(f)
              case Success(s) => r.Success? && St() == s
    {
      if peekToken.Type == SEMICOLON {
        r := NextToken();
      } else {
        r := Success(());
      }
    }

    /** `parseReturnStatement`. */
    method ParseReturnStatement() returns (r: Result<Option<Statement>, Spec.Fault>)
      requires Valid() && curToken.Type == RETURN
      modifies this, lex
      ensures Valid() && Agrees(r, Spec.ParseReturn(toks, old(St())))
      decreases |toks| - pos, 4
    {
      var t := curToken;
      Shift();
      var value :- ParseExpression(Spec.LOWEST);
      var u :- SkipSemicolon();
      return Success(Some(ReturnStatement(t, value)));
    }

    /** `parseExpressionStatement`. */
    method ParseExpressionStatement() returns (r: Result<Option<Statement>, Spec.Fault>)
      requires Valid()
      modifies this, lex
      ensures Valid() && Agrees(r, Spec.ParseExpressionStatement(toks, old(St())))
      decreases |toks| - pos, 4
    {
      var t := curToken;
      var e :- ParseExpression(Spec.LOWEST);
      var u :- SkipSemicolon();
      return Success(Some(ExpressionStatement(t, e)));
    }

    /** `parseExpression(precedence)`: the prefix rule of the current kind,
        then infix rules while the peek token binds tighter. */
    method ParseExpression(precedence: Spec.Precedence) returns (r: Result<Option<Expression>, Spec.Fault>)
      requires Valid()
      modifies this, lex
      ensures Valid() && Agrees(r, Spec.ParseExpression(toks, old(St()), precedence))
      decreases |toks| - pos, 3
    {
      if curToken.Type !in Spec.PrefixKinds {
        errors := errors + [Spec.NoPrefixMessage(curToken.Type)];
        return Success(None);
      }
      var left :- ParsePrefix();
      r := ParseInfixLoop(precedence, left);
    }

    /** The `while` loop of `parseExpression`. */
    method ParseInfixLoop(precedence: Spec.Precedence, left0: Option<Expression>)
      returns (r: Result<Option<Expression>, Spec.Fault>)
      requires Valid()
      modifies this, lex
      ensures Valid() && Agrees(r, Spec.ExprLoop(toks, old(St()), precedence, left0))
      decreases |toks| - pos, 1
    {
      var left := left0;
      ghost var spec := Spec.ExprLoop(toks, St(), precedence, left0);
      while peekToken.Type != SEMICOLON && precedence < Spec.PrecedenceOf(peekToken.Type)
        invariant Valid() && old(pos) <= pos
        invariant Spec.ExprLoop(toks, St(), precedence, left) == spec
        decreases |toks| - pos
      {
        assert Spec.Peek(toks, St()) == peekToken;
        ExprLoopTurn(toks, St(), precedence, left);
        var u := NextToken();
        if u.Failure? {
          assert spec == Failure(Spec.ReachedEof);
          return Failure(u.error);
        }
        if left.None? {
          assert spec == Failure(Spec.NullLeft);
          return Failure(Spec.NullLeft);
        }
        var e := ParseInfix(left.value);
        if e.Failure? {
          return Failure(e.error);
        }
        left := Some(e.value);
      }
      assert spec == Success(Spec.Parsed(left, St()));
      return Success(left);
    }

    /** The infix rule registered for the current kind. */
    method ParseInfix(left: Expression) returns (r: Result<Expression, Spec.Fault>)
      requires Valid() && curToken.Type in Spec.Precedences
      modifies this, lex
      ensures Valid() && Agrees(r, Spec.ParseInfix(toks, old(St()), left))
      decreases |toks| - pos, 2
    {
      if curToken.Type == LPAREN {
        r := ParseCallExpression(left);
      } else {
        r := ParseInfixExpression(left);
      }
    }

    /** `parseBlockStatement`: statements up to `}` or EOF, each followed by
        one `nextToken`; the null ones are dropped. */
    method ParseBlockStatement() returns (r: Result<BlockStatement, Spec.Fault>)
      requires Valid() && curToken.Type == LBRACE
      modifies this, lex
      ensures Valid() && Agrees(r, Spec.ParseBlock(toks, old(St())))
      decreases |toks| - pos, 0
    {
      var tok := curToken;
      Shift();
      var stmts: seq<Statement> := [];
      ghost var s1 := St();
      while curToken.Type != RBRACE && curToken.Type != EOF
        invariant Valid() && old(pos) < pos
        invariant Spec.BlockLoop(toks, St(), tok, stmts) == Spec.BlockLoop(toks, s1, tok, [])
        decreases |toks| - pos
      {
        ghost var s, acc := St(), stmts;
        var stmt :- ParseStatement();
        if stmt.Some? {
          stmts := stmts + [stmt.value];
        }
        assert stmts == acc + Spec.OptList(stmt);
        var u :- NextToken();
        assert Spec.BlockLoop(toks, s, tok, acc) == Spec.BlockLoop(toks, St(), tok, stmts);
      }
      return Success(BlockStatement(tok, stmts));
    }
  }

  /** One turn of the `while` loop of `parseExpression`: `nextToken`, the
      null check, the infix rule, and the rest of the loop from where that
      rule leaves it. */
  lemma ExprLoopTurn(ts: seq<Token>, s: Spec.PState, prec: Spec.Precedence, left: Option<Expression>)
    requires Spec.Ok(ts, s) && Spec.Peek(ts, s).Type != SEMICOLON && prec < Spec.PrecedenceOf(Spec.Peek(ts, s).Type)
    ensures Spec.NextToken(ts, s).Failure? ==> Spec.ExprLoop(ts, s, prec, left) == Failure(Spec.ReachedEof)
    ensures Spec.NextToken(ts, s).Success? && left.None? ==> Spec.ExprLoop(ts, s, prec, left) == Failure(Spec.NullLeft)
    ensures Spec.NextToken(ts, s).Success? && left.Some? ==>
      var s1 := Spec.NextToken(ts, s).value;
      var e := Spec.ParseInfix(ts, s1, left.value);
      Spec.ExprLoop(ts, s, prec, left) == if e.Failure? then Failure(e.error) else Spec.ExprLoop(ts, e.value.st, prec, Some(e.value.node))
  {
  }

  /** What a caller of the parser does (tests/parser.test.ts): a lexer over
      the input, a parser over the lexer, `parseProgram`, then `getErrors`.
      The answers are those of the parse function on the lexer's stream. */
  method ParseSource(input: string) returns (r: Result<Program, Spec.Fault>, errs: seq<string>)
    ensures match Spec.ParseProgram(TokenStream.Stream(input, 0))
            case Failure(f) => r == Failure(f)
            case Success(p) => r == Success(p.node) && errs == p.st.errors
  {
    var l := new Lexer.Lexer(input);
    var p := new Parser(l);
    r := p.ParseProgram();
    errs := p.GetErrors();
  }
}
