/** The token catalogue the parser uses (token.ts): the kind strings, the
    two-field token record and the keyword lookup. */
module Tokens {

  type TokenType = string

  const ILLEGAL: TokenType := "ILLEGAL"
  const EOF: TokenType := "EOF"

  const IDENT: TokenType := "IDENT"
  const INT: TokenType := "INT"

  const ASSIGN: TokenType := "="
  const PLUS: TokenType := "+"
  const MINUS: TokenType := "-"
  const BANG: TokenType := "!"
  const ASTERISK: TokenType := "*"
  const SLASH: TokenType := "/"

  const LT: TokenType := "<"
  const GT: TokenType := ">"
  const EQ: TokenType := "=="
  const NOT_EQ: TokenType := "!="

  const COMMA: TokenType := ","
  const SEMICOLON: TokenType := ";"

  const LPAREN: TokenType := "("
  const RPAREN: TokenType := ")"
  const LBRACE: TokenType := "{"
  const RBRACE: TokenType := "}"

  const FUNCTION: TokenType := "FUNCTION"
  const LET: TokenType := "LET"
  const TRUE: TokenType := "TRUE"
  const FALSE: TokenType := "FALSE"
  const IF: TokenType := "IF"
  const ELSE: TokenType := "ELSE"
  const RETURN: TokenType := "RETURN"

  /** Every kind constant of the catalogue, in declaration order. */
  const AllKinds: seq<TokenType> :=
    [ILLEGAL, EOF, IDENT, INT, ASSIGN, PLUS, MINUS, BANG, ASTERISK, SLASH,
     LT, GT, EQ, NOT_EQ, COMMA, SEMICOLON, LPAREN, RPAREN, LBRACE, RBRACE,
     FUNCTION, LET, TRUE, FALSE, IF, ELSE, RETURN]

  /** The operator and punctuation kinds; each is its own source spelling. */
  const SpelledKinds: seq<TokenType> :=
    [ASSIGN, PLUS, MINUS, BANG, ASTERISK, SLASH, LT, GT, EQ, NOT_EQ,
     COMMA, SEMICOLON, LPAREN, RPAREN, LBRACE, RBRACE]

  /** The keyword spellings and the kinds they stand for. */
  const KeywordSpellings: seq<string> := ["fn", "let", "true", "false", "if", "else", "return"]
  const KeywordKinds: seq<TokenType> := [FUNCTION, LET, TRUE, FALSE, IF, ELSE, RETURN]

  datatype Token = Token(Type: TokenType, Literal: string)

  /** `new Token()`: both fields empty. */
  function NewToken(): (t: Token)
    ensures t.Type == "" && t.Literal == ""
    ensures t.Type !in AllKinds
  {
    Token("", "")
  }

  /** The keyword table that `lookupIdent` builds locally. */
  function Keywords(): (m: map<string, TokenType>)
    ensures forall w :: w in m <==> w in KeywordSpellings
    ensures forall i :: 0 <= i < |KeywordSpellings| ==> m[KeywordSpellings[i]] == KeywordKinds[i]
  {
    map["fn" := FUNCTION, "let" := LET, "true" := TRUE, "false" := FALSE,
        "if" := IF, "else" := ELSE, "return" := RETURN]
  }

  /** `lookupIdent`: exactly the seven keywords get their own kind; every
      other word, whatever its case, is an IDENT. */
  function LookupIdent(ident: string): (k: TokenType)
    ensures ident in KeywordSpellings <==> k != IDENT
    ensures forall i :: 0 <= i < |KeywordSpellings| && ident == KeywordSpellings[i] ==> k == KeywordKinds[i]
    ensures k == IDENT || k in KeywordKinds
    ensures k !in SpelledKinds
  {
    var keywords := Keywords();
    if ident in keywords then keywords[ident] else IDENT
  }

  /** The kind constants are pairwise distinct. */
  lemma KindsDistinct()
    ensures forall i, j :: 0 <= i < j < |AllKinds| ==> AllKinds[i] != AllKinds[j]
  {
  }

  /** Differently cased keywords are identifiers. */
  lemma CaseMatters()
    ensures LookupIdent("Let") == IDENT && LookupIdent("FN") == IDENT && LookupIdent("True") == IDENT
    ensures LookupIdent("let") == LET
  {
  }
}
