/** The whole pipeline of tests/evaluator.test.ts: a lexer over the source
    text, a parser over the lexer, `parseProgram`, then `Eval` of the
    program. */
module Interpreter {
  import opened Wrappers
  import Tokens
  import Ast
  import Lexer
  import Numbers
  import TokenStream
  import ParserSpec
  import Parsing
  import opened Objects
  import opened Evaluator

  /** Why a run has no value: the parser threw, or a division had no
      integer quotient. */
  datatype Halt = Parse(fault: ParserSpec.Fault) | Arithmetic(beyond: Beyond)

  /** The value of a source text. */
  function Interpret(input: string): (r: Result<Object, Halt>)
    ensures r.Failure? && r.error.Parse? <==> ParserSpec.ParseProgram(TokenStream.Stream(input, 0)).Failure?
    ensures r.Success? ==> Produced(r.value)
  {
    match ParserSpec.ParseProgram(TokenStream.Stream(input, 0))
    case Failure(f) => Failure(Parse(f))
    case Success(p) =>
      match ProgramResult(p.node)
      case Failure(b) => Failure(Arithmetic(b))
      case Success(v) => Success(v)
  }

  /** `testEval`: the objects themselves, run in turn. */
  method TestEval(input: string) returns (r: Result<Object, Halt>)
    ensures r == Interpret(input)
  {
    var program, _ := Parsing.ParseSource(input);
    if program.Failure? {
      return Failure(Parse(program.error));
    }
    var v := EvalProgram(program.value);
    if v.Failure? {
      return Failure(Arithmetic(v.error));
    }
    return Success(v.value);
  }

  /** The lexer reads "5" and "10" as one INT token each. */
  lemma DigitsLexed(digits: string)
    requires digits == "5" || digits == "10"
    ensures TokenStream.Stream(digits, 0) == [Tokens.Token(Tokens.INT, digits)]
  {
    Lexer.NumberIsMaximalRun(digits, 0);
    assert Lexer.Scan(digits, 0) == (Lexer.LexTokens.Token(Tokens.INT, digits), |digits|) by {
      assert digits[0..|digits|] == digits;
      if digits == "10" {
        assert Lexer.NumberEnd(digits, 2) == 2;
        assert Lexer.NumberEnd(digits, 1) == 2;
      }
    }
  }

  /** A lone INT token parses to one expression statement holding its literal. */
  lemma LiteralParsed(digits: string, value: nat)
    requires (digits, value) == ("5", 5) || (digits, value) == ("10", 10)
    ensures ParserSpec.ParseProgram([Tokens.Token(Tokens.INT, digits)])
         == Success(ParserSpec.Parsed(LiteralProgram(digits, value), ParserSpec.PState(1, [])))
  {
    var tok := Tokens.Token(Tokens.INT, digits);
    var ts := [tok];
    assert Numbers.DigitsValue(digits) == value by {
      assert digits[..|digits| - 1] == if digits == "5" then "" else "1";
      if digits == "10" {
        assert "1"[..0] == "";
      }
    }
    var lit := Ast.IntegerLiteral(tok, value);
    var s1 := ParserSpec.PState(0, []);
    assert ParserSpec.ParseIntegerLiteral(ts, s1) == ParserSpec.Parsed(Some(lit), s1);
    assert ParserSpec.ParsePrefix(ts, s1) == Success(ParserSpec.Parsed(Some(lit), s1));
    assert ParserSpec.ExprLoop(ts, s1, ParserSpec.LOWEST, Some(lit)) == Success(ParserSpec.Parsed(Some(lit), s1));
    assert ParserSpec.ParseExpression(ts, s1, ParserSpec.LOWEST) == Success(ParserSpec.Parsed(Some(lit), s1));
    assert ParserSpec.SkipSemicolon(ts, s1) == Success(s1);
    var stmt := Ast.ExpressionStatement(tok, Some(lit));
    assert ParserSpec.ParseStatement(ts, s1) == Success(ParserSpec.Parsed(Some(stmt), s1));
    assert ParserSpec.NextToken(ts, s1) == Success(ParserSpec.PState(1, []));
    assert ParserSpec.Cur(ts, s1).Type != Tokens.EOF;
    assert [] + ParserSpec.OptList(Some(stmt)) == [stmt];
    assert ParserSpec.ProgramLoop(ts, s1, []) == ParserSpec.ProgramLoop(ts, ParserSpec.PState(1, []), [stmt]);
  }

  /** The program of one integer literal statement. */
  function LiteralProgram(digits: string, value: nat): Ast.Program {
    var tok := Tokens.Token(Tokens.INT, digits);
    Ast.Program([Ast.ExpressionStatement(tok, Some(Ast.IntegerLiteral(tok, value)))])
  }

  /** The source texts "5" and "10" have the integer values 5 and 10. */
  lemma IntegerPrograms(digits: string, value: nat)
    requires (digits, value) == ("5", 5) || (digits, value) == ("10", 10)
    ensures Interpret(digits) == Success(Integer(value))
  {
    DigitsLexed(digits);
    LiteralParsed(digits, value);
    var stmt := LiteralProgram(digits, value).statements[0];
    assert EvalStmt(stmt) == Success(Integer(value));
    assert [stmt][1..] == [];
    assert ProgramFold([stmt], NULL) == ProgramFold([], Integer(value));
  }
}
