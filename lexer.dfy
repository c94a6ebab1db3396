/** The lexer (lexer/lexer.ts): a cursor over the input text that hands out
    one token per call. `Scan` states what one call of `NextToken` does as a
    function of the cursor position; the class `Lexer` is the cursor itself
    and is proved to follow `Scan`. */
module Lexer {
  import opened LexTokens

  /** The character the source reads past the end of the input. */
  const NUL: char := '\0'

  /** The character under position `i`, or NUL past the end (lexer.ts:139-143). */
  function CharAt(input: string, i: nat): char {
    if i < |input| then input[i] else NUL
  }

  /** `input.slice(i, j)` for non-negative bounds: both are clamped to the length. */
  function Slice(s: string, i: nat, j: nat): (r: string)
    ensures i <= j <= |s| ==> r == s[i..j]
  {
    var from := if i < |s| then i else |s|;
    var to := if j < |s| then j else |s|;
    if from < to then s[from..to] else ""
  }

  predicate IsDigit(c: char)
    ensures IsDigit(c) ==> !IsLetter(c) && !IsWhitespace(c) && c != NUL
  {
    '0' <= c <= '9'
  }

  /** `isLetter` as written: besides A-Z and a-z, every character whose code is
      at least that of '_' counts, '{', '|', '}', '~' and all non-ASCII included. */
  predicate IsLetter(c: char)
    ensures IsLetter(c) ==> !IsWhitespace(c) && c != NUL
    ensures c in "{|}~" ==> IsLetter(c)
  {
    ('a' <= c <= 'z') || ('A' <= c <= 'Z') || '_' <= c
  }

  predicate IsWhitespace(c: char)
    ensures IsWhitespace(c) ==> c <= ' ' && c != NUL
  {
    c == ' ' || c == '\t' || c == '\n' || c == '\r'
  }

  /** Where `skipWhitespace` leaves the cursor when it starts at `p`. */
  function WhitespaceEnd(input: string, p: nat): (q: nat)
    ensures p <= q && !IsWhitespace(CharAt(input, q))
    ensures q > p ==> q <= |input|
    decreases |input| - p
  {
    if IsWhitespace(CharAt(input, p)) then WhitespaceEnd(input, p + 1) else p
  }

  /** Where `readIdent` stops: the end of the run of letters starting at `p`. */
  function IdentEnd(input: string, p: nat): (q: nat)
    ensures p <= q && !IsLetter(CharAt(input, q))
    ensures q > p ==> q <= |input|
    decreases |input| - p
  {
    if IsLetter(CharAt(input, p)) then IdentEnd(input, p + 1) else p
  }

  /** Where `readNumber` stops: the end of the run of digits starting at `p`. */
  function NumberEnd(input: string, p: nat): (q: nat)
    ensures p <= q && !IsDigit(CharAt(input, q))
    ensures q > p ==> q <= |input|
    decreases |input| - p
  {
    if IsDigit(CharAt(input, p)) then NumberEnd(input, p + 1) else p
  }

  /** The kind of a character that forms a token on its own, or "" when the
      character is not one of them (the single-character cases of the switch). */
  function SingleKind(c: char): (k: TokenType)
    ensures k != "" ==> !IsDigit(c) && !IsWhitespace(c) && c != NUL && c != '=' && c != '!'
    ensures k != "" ==> (IsLetter(c) <==> c == '{' || c == '}')
    ensures k != "" ==> k != ILLEGAL && k != EOF && k != IDENT && k != INT
  {
    match c
    case '+' => PLUS
    case '-' => MINUS
    case '/' => SLASH
    case '*' => ASTERISK
    case '<' => LT
    case '>' => GT
    case ';' => SEMICOLON
    case ',' => COMMA
    case '(' => LPAREN
    case ')' => RPAREN
    case '{' => LBRACE
    case '}' => RBRACE
    case _ => ""
  }

  /** One call of `NextToken` from cursor position `p`: the token and the new
      position. */
  function Scan(input: string, p: nat): (r: (Token, nat))
    ensures r.1 > p
  {
    var q := WhitespaceEnd(input, p);
    var c := CharAt(input, q);
    if c == '=' then
      if CharAt(input, q + 1) == '=' then (Token(EQ, "=="), q + 2) else (Token(ASSIGN, "="), q + 1)
    else if c == '!' then
      if CharAt(input, q + 1) == '=' then (Token(NOT_EQ, "!="), q + 2) else (Token(BANG, "!"), q + 1)
    else if SingleKind(c) != "" then
      (Token(SingleKind(c), [c]), q + 1)
    else if c == NUL then
      (Token(EOF, ""), q + 1)
    else if IsLetter(c) then
      var e := IdentEnd(input, q);
      var lit := input[q..e];
      (Token(NewToken().LookupIdent(lit), lit), e)
    else if IsDigit(c) then
      var e := NumberEnd(input, q);
      (Token(INT, input[q..e]), e)
    else
      (Token(ILLEGAL, [c]), q + 1)
  }

  /** The whole token stream from position `p` up to and including the first EOF. */
  function Tokenize(input: string, p: nat): (ts: seq<Token>)
    ensures |ts| > 0
    decreases |input| + 1 - p
  {
    var (t, p') := Scan(input, p);
    if t.Type == EOF then [t] else [t] + Tokenize(input, p')
  }

  /** Every character that `skipWhitespace` passes over is whitespace. */
  lemma {:induction false} WhitespaceRun(input: string, p: nat)
    ensures forall i :: p <= i < WhitespaceEnd(input, p) ==> IsWhitespace(CharAt(input, i))
    decreases |input| - p
  {
    if IsWhitespace(CharAt(input, p)) {
      WhitespaceRun(input, p + 1);
    }
  }

  /** Every character that `readIdent` passes over is a letter. */
  lemma {:induction false} IdentRun(input: string, p: nat)
    ensures forall i :: p <= i < IdentEnd(input, p) ==> IsLetter(CharAt(input, i))
    decreases |input| - p
  {
    if IsLetter(CharAt(input, p)) {
      IdentRun(input, p + 1);
    }
  }

  /** Every character that `readNumber` passes over is a digit. */
  lemma {:induction false} NumberRun(input: string, p: nat)
    ensures forall i :: p <= i < NumberEnd(input, p) ==> IsDigit(CharAt(input, i))
    decreases |input| - p
  {
    if IsDigit(CharAt(input, p)) {
      NumberRun(input, p + 1);
    }
  }

  /** The shape of every token: after the skipped whitespace, EOF exactly at
      NUL with an empty literal; any other token's literal is the stretch of
      input it consumed. */
  lemma ScanShape(input: string, p: nat)
    ensures var q := WhitespaceEnd(input, p);
      var r := Scan(input, p);
      && (r.0.Type == EOF <==> CharAt(input, q) == NUL)
      && (r.0.Type == EOF ==> r.0.Literal == "" && r.1 == q + 1)
      && (r.0.Type != EOF ==> q < r.1 <= |input| && r.0.Literal == input[q..r.1])
  {
  }

  /** The stream ends with its first EOF token. */
  lemma {:induction false} TokenizeEndsAtEof(input: string, p: nat)
    ensures var ts := Tokenize(input, p);
      && ts[|ts| - 1].Type == EOF
      && forall i :: 0 <= i < |ts| - 1 ==> ts[i].Type != EOF
    decreases |input| + 1 - p
  {
    var (t, p') := Scan(input, p);
    if t.Type != EOF {
      TokenizeEndsAtEof(input, p');
    }
  }

  /** The cursor position after `k` further calls of `NextToken` from `p`. */
  function PositionAfter(input: string, p: nat, k: nat): (q: nat)
    ensures q >= p
    decreases k
  {
    if k == 0 then p else PositionAfter(input, Scan(input, p).1, k - 1)
  }

  /** Past the end of the input a call returns EOF with an empty literal. */
  lemma EofPastEnd(input: string, p: nat)
    requires p >= |input|
    ensures Scan(input, p) == (Token(EOF, ""), p + 1)
  {
  }

  /** In an input without NUL characters, NUL is read only past the end. */
  lemma NulOnlyPastEnd(input: string, i: nat)
    requires NUL !in input
    ensures CharAt(input, i) == NUL ==> i >= |input|
  {
    if i < |input| {
      assert input[i] in input;
    }
  }

  /** Once a call has returned EOF on an input without NUL characters, every
      later call returns EOF again, however many calls follow. */
  lemma {:induction false} EofIsStable(input: string, p: nat, k: nat)
    requires NUL !in input
    requires Scan(input, p).0.Type == EOF
    ensures Scan(input, PositionAfter(input, Scan(input, p).1, k)).0 == Token(EOF, "")
    decreases k
  {
    var q := WhitespaceEnd(input, p);
    ScanShape(input, p);
    NulOnlyPastEnd(input, q);
    var p' := Scan(input, p).1;
    EofPastEnd(input, p');
    if k > 0 {
      assert PositionAfter(input, p', k) == PositionAfter(input, Scan(input, p').1, k - 1);
      EofIsStable(input, p', k - 1);
    }
  }

  /** `=` directly followed by `=` is one EQ token, otherwise an ASSIGN token;
      `!` likewise becomes NOT_EQ or BANG. */
  lemma OneCharacterLookahead(input: string, p: nat)
    ensures var q := WhitespaceEnd(input, p);
      && (CharAt(input, q) == '=' ==>
           Scan(input, p) == if CharAt(input, q + 1) == '=' then (Token(EQ, "=="), q + 2) else (Token(ASSIGN, "="), q + 1))
      && (CharAt(input, q) == '!' ==>
           Scan(input, p) == if CharAt(input, q + 1) == '=' then (Token(NOT_EQ, "!="), q + 2) else (Token(BANG, "!"), q + 1))
  {
  }

  /** No token literal holds a whitespace character. */
  lemma NoWhitespaceInLiterals(input: string, p: nat, i: nat)
    requires i < |Scan(input, p).0.Literal|
    ensures !IsWhitespace(Scan(input, p).0.Literal[i])
  {
    var q := WhitespaceEnd(input, p);
    var c := CharAt(input, q);
    var (t, e) := Scan(input, p);
    ScanShape(input, p);
    IdentRun(input, q);
    NumberRun(input, q);
    assert t.Literal[i] == CharAt(input, q + i);
    if IsLetter(c) && SingleKind(c) == "" && c != '=' && c != '!' {
      assert IsLetter(CharAt(input, q + i));
    } else if IsDigit(c) && SingleKind(c) == "" && c != '=' && c != '!' {
      assert IsDigit(CharAt(input, q + i));
    }
  }

  /** A token that starts with a letter (other than the brace characters,
      which have their own cases) is the longest run of letters there, and its
      kind is what the keyword lookup says for that run. */
  lemma IdentifierIsMaximalRun(input: string, p: nat)
    requires var c := CharAt(input, WhitespaceEnd(input, p)); IsLetter(c) && c != '{' && c != '}'
    ensures var q := WhitespaceEnd(input, p);
      var (t, e) := Scan(input, p);
      && e == IdentEnd(input, q) && q < e
      && t.Literal == input[q..e]
      && (forall i :: 0 <= i < |t.Literal| ==> IsLetter(t.Literal[i]) && !IsDigit(t.Literal[i]))
      && !IsLetter(CharAt(input, e))
      && t.Type == Tokens.LookupIdent(t.Literal)
  {
    var q := WhitespaceEnd(input, p);
    var (t, e) := Scan(input, p);
    IdentRun(input, q);
    forall i | 0 <= i < |t.Literal|
      ensures IsLetter(t.Literal[i]) && !IsDigit(t.Literal[i])
    {
      assert t.Literal[i] == CharAt(input, q + i);
    }
    LookupsAgree(NewToken(), t.Literal);
  }

  /** A token that starts with a digit is the longest run of digits there,
      of kind INT, and holds no letter. */
  lemma NumberIsMaximalRun(input: string, p: nat)
    requires IsDigit(CharAt(input, WhitespaceEnd(input, p)))
    ensures var q := WhitespaceEnd(input, p);
      var (t, e) := Scan(input, p);
      && t.Type == INT && e == NumberEnd(input, q) && q < e
      && t.Literal == input[q..e]
      && (forall i :: 0 <= i < |t.Literal| ==> IsDigit(t.Literal[i]) && !IsLetter(t.Literal[i]))
      && !IsDigit(CharAt(input, e))
  {
    var q := WhitespaceEnd(input, p);
    var (t, e) := Scan(input, p);
    NumberRun(input, q);
    forall i | 0 <= i < |t.Literal|
      ensures IsDigit(t.Literal[i]) && !IsLetter(t.Literal[i])
    {
      assert t.Literal[i] == CharAt(input, q + i);
    }
  }

  /** Any other character is an ILLEGAL token holding just that character,
      and lexing goes on right after it. */
  lemma IllegalCharacter(input: string, p: nat)
    requires var c := CharAt(input, WhitespaceEnd(input, p));
      c != NUL && c != '=' && c != '!' && SingleKind(c) == "" && !IsLetter(c) && !IsDigit(c)
    ensures var q := WhitespaceEnd(input, p);
      Scan(input, p) == (Token(ILLEGAL, [input[q]]), q + 1)
  {
  }

  /** The letter quirk: a closing brace right after a name is part of the name. */
  lemma BraceJoinsIdentifier()
    ensures Tokenize("x}", 0) == [Token(IDENT, "x}"), Token(EOF, "")]
  {
    var input := "x}";
    assert IdentEnd(input, 2) == 2;
    assert IdentEnd(input, 1) == 2;
    assert IdentEnd(input, 0) == 2;
    assert input[0..2] == "x}";
    assert Scan(input, 0) == (Token(IDENT, "x}"), 2);
    EofPastEnd(input, 2);
  }

  /** The first sample of tests/lexer.test.ts. */
  lemma PunctuationSample()
    ensures Tokenize("=+(){},;", 0) ==
      [Token(ASSIGN, "="), Token(PLUS, "+"), Token(LPAREN, "("), Token(RPAREN, ")"),
       Token(LBRACE, "{"), Token(RBRACE, "}"), Token(COMMA, ","), Token(SEMICOLON, ";"),
       Token(EOF, "")]
  {
    var input := "=+(){},;";
    assert Scan(input, 0) == (Token(ASSIGN, "="), 1);
    assert Scan(input, 1) == (Token(PLUS, "+"), 2);
    assert Scan(input, 2) == (Token(LPAREN, "("), 3);
    assert Scan(input, 3) == (Token(RPAREN, ")"), 4);
    assert Scan(input, 4) == (Token(LBRACE, "{"), 5);
    assert Scan(input, 5) == (Token(RBRACE, "}"), 6);
    assert Scan(input, 6) == (Token(COMMA, ","), 7);
    assert Scan(input, 7) == (Token(SEMICOLON, ";"), 8);
    EofPastEnd(input, 8);
    assert Tokenize(input, 7) == [Token(SEMICOLON, ";"), Token(EOF, "")];
    assert Tokenize(input, 6) == [Token(COMMA, ","), Token(SEMICOLON, ";"), Token(EOF, "")];
    assert Tokenize(input, 5) == [Token(RBRACE, "}")] + Tokenize(input, 6);
    assert Tokenize(input, 4) == [Token(LBRACE, "{")] + Tokenize(input, 5);
    assert Tokenize(input, 3) == [Token(RPAREN, ")")] + Tokenize(input, 4);
    assert Tokenize(input, 2) == [Token(LPAREN, "(")] + Tokenize(input, 3);
    assert Tokenize(input, 1) == [Token(PLUS, "+")] + Tokenize(input, 2);
  }

  /** The cursor of lexer.ts: `position` is the index of `ch`, `readPosition`
      the index `readChar` will read next. */
  class Lexer {
    const input: string
    var position: nat
    var readPosition: nat
    var ch: char

    ghost predicate Valid()
      reads this
    {
      readPosition == position + 1 && ch == CharAt(input, position)
    }

    constructor (input: string)
      ensures Valid() && this.input == input && position == 0
    {
      this.input := input;
      position, readPosition, ch := 0, 0, NUL;
      new;
      ReadChar();
    }

    /** Moves the cursor one character on; past the end `ch` becomes NUL and
        the positions keep growing. */
    method ReadChar()
      modifies this
      ensures position == old(readPosition) && readPosition == old(readPosition) + 1
      ensures ch == CharAt(input, old(readPosition))
    {
      if readPosition >= |input| {
        ch := NUL;
      } else {
        ch := input[readPosition];
      }
      position := readPosition;
      readPosition := readPosition + 1;
    }

    /** The character after `ch`, without moving. */
    method PeekChar() returns (c: char)
      ensures c == CharAt(input, readPosition)
    {
      if readPosition >= |input| {
        c := NUL;
      } else {
        c := input[readPosition];
      }
    }

    method SkipWhitespace()
      requires Valid()
      modifies this
      ensures Valid() && position == WhitespaceEnd(input, old(position))
    {
      while IsWhitespace(ch)
        invariant Valid() && old(position) <= position
        invariant WhitespaceEnd(input, position) == WhitespaceEnd(input, old(position))
        decreases |input| - position
      {
        ReadChar();
      }
    }

    method ReadNumber() returns (lit: string)
      requires Valid()
      modifies this
      ensures Valid() && position == NumberEnd(input, old(position))
      ensures lit == Slice(input, old(position), position)
    {
      var pos := position;
      while IsDigit(ch)
        invariant Valid() && pos <= position
        invariant NumberEnd(input, position) == NumberEnd(input, pos)
        decreases |input| - position
      {
        ReadChar();
      }
      lit := Slice(input, pos, position);
    }

    method ReadIdent() returns (lit: string)
      requires Valid()
      modifies this
      ensures Valid() && position == IdentEnd(input, old(position))
      ensures lit == Slice(input, old(position), position)
    {
      var pos := position;
      while IsLetter(ch)
        invariant Valid() && pos <= position
        invariant IdentEnd(input, position) == IdentEnd(input, pos)
        decreases |input| - position
      {
        ReadChar();
      }
      lit := Slice(input, pos, position);
    }

    /** `NextToken`: skips whitespace, then dispatches on the current character. */
    method NextToken() returns (tok: Token)
      requires Valid()
      modifies this
      ensures Valid()
      ensures (tok, position) == Scan(input, old(position))
    {
      tok := NewToken();
      SkipWhitespace();
      if ch == '=' {
        var next := PeekChar();
        if next == '=' {
          var first := ch;
          ReadChar();
          tok := Token(EQ, [first, ch]);
        } else {
          tok := Token(ASSIGN, [ch]);
        }
      } else if ch == '!' {
        var next := PeekChar();
        if next == '=' {
          var first := ch;
          ReadChar();
          tok := Token(NOT_EQ, [first, ch]);
        } else {
          tok := Token(BANG, [ch]);
        }
      } else if SingleKind(ch) != "" {
        tok := Token(SingleKind(ch), [ch]);
      } else if ch == NUL {
        tok := tok.(Literal := "", Type := EOF);
      } else if IsLetter(ch) {
        var lit := ReadIdent();
        tok := tok.(Literal := lit);
        tok := tok.(Type := tok.LookupIdent(tok.Literal));
        return;
      } else if IsDigit(ch) {
        var lit := ReadNumber();
        tok := tok.(Literal := lit, Type := INT);
        return;
      } else {
        tok := Token(ILLEGAL, [ch]);
      }
      ReadChar();
    }
  }
}
