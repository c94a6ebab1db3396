/** The token catalogue the lexer uses (token/token.ts). It repeats the kind
    strings of token.ts, and its token carries its own `keywords` table,
    filled in by the constructor and never changed afterwards. */
module LexTokens {
  import Tokens

  type TokenType = string

  const ILLEGAL: TokenType := "ILLEGAL"
  const EOF: TokenType := "EOF"

  const IDENT: TokenType := "IDENT"
  const INT: TokenType := "INT"

  const ASSIGN: TokenType := "="
  const PLUS: TokenType := "+"
  const MINUS: TokenType := "-"
  const BANG: TokenType := "!"
  const ASTERISK: TokenType := "*"
  const SLASH: TokenType := "/"

  const LT: TokenType := "<"
  const GT: TokenType := ">"
  const EQ: TokenType := "=="
  const NOT_EQ: TokenType := "!="

  const COMMA: TokenType := ","
  const SEMICOLON: TokenType := ";"

  const LPAREN: TokenType := "("
  const RPAREN: TokenType := ")"
  const LBRACE: TokenType := "{"
  const RBRACE: TokenType := "}"

  const FUNCTION: TokenType := "FUNCTION"
  const LET: TokenType := "LET"
  const TRUE: TokenType := "TRUE"
  const FALSE: TokenType := "FALSE"
  const IF: TokenType := "IF"
  const ELSE: TokenType := "ELSE"
  const RETURN: TokenType := "RETURN"

  /** Every kind constant of this copy, in declaration order. */
  const AllKinds: seq<TokenType> :=
    [ILLEGAL, EOF, IDENT, INT, ASSIGN, PLUS, MINUS, BANG, ASTERISK, SLASH,
     LT, GT, EQ, NOT_EQ, COMMA, SEMICOLON, LPAREN, RPAREN, LBRACE, RBRACE,
     FUNCTION, LET, TRUE, FALSE, IF, ELSE, RETURN]

  const KeywordSpellings: seq<string> := ["fn", "let", "true", "false", "if", "else", "return"]
  const KeywordKinds: seq<TokenType> := [FUNCTION, LET, TRUE, FALSE, IF, ELSE, RETURN]

  /** A token: `Type` and `Literal` are set by whoever builds it; the
      `keywords` table is the one the constructor installs, on every token. */
  datatype Token = Token(Type: TokenType, Literal: string) {

    const keywords: map<string, TokenType> :=
      map["fn" := FUNCTION, "let" := LET, "true" := TRUE, "false" := FALSE,
          "if" := IF, "else" := ELSE, "return" := RETURN]

    /** `lookupIdent` reads this token's `keywords` table. */
    function LookupIdent(ident: string): (k: TokenType)
      ensures ident in KeywordSpellings <==> k != IDENT
      ensures forall i :: 0 <= i < |KeywordSpellings| && ident == KeywordSpellings[i] ==> k == KeywordKinds[i]
    {
      if ident in keywords then keywords[ident] else IDENT
    }
  }

  /** `new Token()`: empty type and literal, and the seven-entry table. */
  function NewToken(): (t: Token)
    ensures t.Type == "" && t.Literal == ""
    ensures forall w :: w in t.keywords <==> w in KeywordSpellings
  {
    Token("", "")
  }

  /** The answer of `lookupIdent` does not depend on the receiving token. */
  lemma LookupIgnoresReceiver(a: Token, b: Token, ident: string)
    ensures a.LookupIdent(ident) == b.LookupIdent(ident)
  {
  }

  /** Both catalogues spell every kind the same way: this is what lets the
      lexer's tokens meet the parser's comparisons. */
  lemma KindsAgree()
    ensures AllKinds == Tokens.AllKinds
  {
  }

  /** Both keyword lookups give the same answer on every word. */
  lemma LookupsAgree(t: Token, ident: string)
    ensures t.LookupIdent(ident) == Tokens.LookupIdent(ident)
  {
  }
}
