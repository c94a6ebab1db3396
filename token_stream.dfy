/** The tokens a lexer hands the parser, one `NextToken` call after
    another. The lexer builds tokens of token/token.ts, the parser reads
    them as tokens of token.ts; both have the same `Type` and `Literal`. */
module TokenStream {
  import Tokens
  import LexTokens
  import opened Lexer
  import ParserSpec
  import Numbers
  import Wrappers
  import Ast

  /** A lexer token seen through token.ts. */
  function Convert(t: LexTokens.Token): (r: Tokens.Token)
    ensures r.Type == t.Type && r.Literal == t.Literal
  {
    Tokens.Token(t.Type, t.Literal)
  }

  /** The tokens of the calls made from cursor position `p` while the cursor
      is still inside the input; every later call answers EOF. Every call
      consumes at least one character, so there are never more tokens than
      characters left. */
  function Stream(input: string, p: nat): (r: seq<Tokens.Token>)
    ensures p >= |input| ==> r == []
    ensures p < |input| ==> 0 < |r| <= |input| - p
    decreases |input| - p
  {
    if p >= |input| then [] else [Convert(Scan(input, p).0)] + Stream(input, Scan(input, p).1)
  }

  /** One more call moves the cursor by one more `Scan`. */
  lemma {:induction false} PositionAfterStep(input: string, p: nat, k: nat)
    ensures PositionAfter(input, p, k + 1) == Scan(input, PositionAfter(input, p, k)).1
    decreases k
  {
    if k > 0 {
      PositionAfterStep(input, Scan(input, p).1, k - 1);
    }
  }

  /** The `k`-th call from `p` returns the `k`-th token of the stream, EOF
      past its end included. */
  lemma {:induction false} StreamAt(input: string, p: nat, k: nat)
    ensures ParserSpec.At(Stream(input, p), k) == Convert(Scan(input, PositionAfter(input, p, k)).0)
    decreases |input| - p
  {
    if p >= |input| {
      EofPastEnd(input, PositionAfter(input, p, k));
    } else if k > 0 {
      StreamAt(input, Scan(input, p).1, k - 1);
    }
  }

  /** An INT token is a non-empty run of decimal digits: no other branch of
      `Scan` yields that kind. */
  lemma ScanInteger(input: string, p: nat)
    ensures Scan(input, p).0.Type == LexTokens.INT ==>
      Scan(input, p).0.Literal != "" && Numbers.AllDigits(Scan(input, p).0.Literal)
  {
    var q := WhitespaceEnd(input, p);
    var c := CharAt(input, q);
    if IsDigit(c) {
      NumberIsMaximalRun(input, p);
    } else if IsLetter(c) {
      var lit := input[q..IdentEnd(input, q)];
      if lit in LexTokens.KeywordSpellings {
        var i :| 0 <= i < |LexTokens.KeywordSpellings| && lit == LexTokens.KeywordSpellings[i];
        assert LexTokens.NewToken().LookupIdent(lit) == LexTokens.KeywordKinds[i];
      }
    }
  }

  /** Every INT token of the stream carries a digit string. */
  lemma {:induction false} StreamIntegers(input: string, p: nat, k: nat)
    requires k < |Stream(input, p)| && Stream(input, p)[k].Type == Tokens.INT
    ensures Stream(input, p)[k].Literal != "" && Numbers.AllDigits(Stream(input, p)[k].Literal)
    decreases |input| - p
  {
    if k == 0 {
      ScanInteger(input, p);
    } else {
      StreamIntegers(input, Scan(input, p).1, k - 1);
    }
  }

  /** On the lexer's stream, `parseIntegerLiteral` never takes its error path:
      the `Number` of an INT literal is always a value. */
  lemma IntegerLiteralsParse(input: string, p: nat, s: ParserSpec.PState)
    requires ParserSpec.Cur(Stream(input, p), s).Type == Tokens.INT
    ensures var t := ParserSpec.Cur(Stream(input, p), s);
      Numbers.AllDigits(t.Literal) && ParserSpec.ParseIntegerLiteral(Stream(input, p), s)
        == ParserSpec.Parsed(Wrappers.Some(Ast.IntegerLiteral(t, Numbers.DigitsValue(t.Literal))), s)
  {
    StreamIntegers(input, p, s.pos);
  }
}
