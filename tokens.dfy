/** Tokens (lexer.h). */
module Tokens {

  /** The token kinds of lexer.h, an enumeration, as the integer each
      enumerator stands for: the kinds in the order of the enumeration,
      followed by the kinds the parser tests for but the enumeration lacks
      (the lexer never produces those). */
  newtype TokenKind = k: int | 0 <= k < 28

  const Number: TokenKind := 0
  const Identifier: TokenKind := 1
  const Plus: TokenKind := 2
  const Minus: TokenKind := 3
  const Star: TokenKind := 4
  const Slash: TokenKind := 5
  const LParen: TokenKind := 6
  const RParen: TokenKind := 7
  const Semicolon: TokenKind := 8
  const Equal: TokenKind := 9
  const IntType: TokenKind := 10
  const FloatType: TokenKind := 11
  const End: TokenKind := 12
  const Print: TokenKind := 13
  const StringType: TokenKind := 14
  const StringLiteral: TokenKind := 15
  const IfType: TokenKind := 16
  const DoubleEqual: TokenKind := 17
  const BangEqual: TokenKind := 18
  const ElseType: TokenKind := 19

  // Not in the enumeration of lexer.h; numbered after its last member.
  const WhileType: TokenKind := 20
  const LBrace: TokenKind := 21
  const RBrace: TokenKind := 22
  const Less: TokenKind := 23
  const LessEqual: TokenKind := 24
  const Greater: TokenKind := 25
  const GreaterEqual: TokenKind := 26
  const Percent: TokenKind := 27

  /** A token: its kind and the text it was scanned from. */
  datatype Token = Token(kind: TokenKind, text: string)

  /** The sentinel the lexer appends and the parser reads past the end. */
  const EndToken: Token := Token(End, "")

  /** The integer value of a kind as `static_cast<int>` gives it. */
  function Ordinal(k: TokenKind): (n: nat)
    ensures n < 28
  {
    k as int
  }

  /** The fixed text of a keyword, operator or punctuation kind; the kinds
      whose text varies (numbers, identifiers, literals, End) have none. */
  function Spelling(k: TokenKind): string {
    if k == Plus then "+"
    else if k == Minus then "-"
    else if k == Star then "*"
    else if k == Slash then "/"
    else if k == LParen then "("
    else if k == RParen then ")"
    else if k == Semicolon then ";"
    else if k == Equal then "="
    else if k == DoubleEqual then "=="
    else if k == BangEqual then "!="
    else if k == Less then "<"
    else if k == LessEqual then "<="
    else if k == Greater then ">"
    else if k == GreaterEqual then ">="
    else if k == Percent then "%"
    else if k == LBrace then "{"
    else if k == RBrace then "}"
    else if k == Print then "smile"
    else if k == IntType then "int"
    else if k == FloatType then "float"
    else if k == StringType then "string"
    else if k == IfType then "ana"
    else if k == ElseType then "elsa"
    else if k == WhileType then "while"
    else ""
  }

  /** Decimal rendering of a natural number, as `std::to_string` writes it. */
  function NatToString(n: nat): (s: string)
    ensures |s| > 0
    ensures forall k :: 0 <= k < |s| ==> '0' <= s[k] <= '9'
  {
    if n < 10 then [DigitChar(n)] else NatToString(n / 10) + [DigitChar(n % 10)]
  }

  function DigitChar(d: nat): (c: char)
    requires d < 10
    ensures '0' <= c <= '9'
  {
    ['0', '1', '2', '3', '4', '5', '6', '7', '8', '9'][d]
  }
}
