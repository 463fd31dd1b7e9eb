/** The scanner of lexer.cpp: a functional specification of one scanning
    step and of the whole token list, and the `Lexer` class whose methods
    advance a cursor through the source exactly as the C++ object does. */
module Lexing {
  import opened Wrappers
  import opened Tokens

  const UnterminatedString: string := "Unterminated string literal"
  const UnterminatedChar: string := "Unterminated character literal"

  /** What `peek` and `get` return once the input is exhausted. */
  const NUL: char := '\0'

  predicate IsAscii(s: string) {
    forall k :: 0 <= k < |s| ==> s[k] < 128 as char
  }

  // The character classes of <cctype> in the C locale, on ASCII.
  predicate IsSpace(c: char) {
    c == ' ' || c == '\t' || c == '\n' || c == '\U{B}' || c == '\U{C}' || c == '\r'
  }
  predicate IsDigit(c: char) { '0' <= c <= '9' }
  predicate IsAlpha(c: char) { 'a' <= c <= 'z' || 'A' <= c <= 'Z' }
  predicate IsAlnum(c: char) { IsDigit(c) || IsAlpha(c) }

  /** The characters a number literal collects: digits and decimal points. */
  predicate IsNumberChar(c: char) { IsDigit(c) || c == '.' }
  /** The characters a double-quoted literal collects. */
  predicate IsNotQuote(c: char) { c != '"' }

  /** The text of a double-quoted literal: no quote character inside. */
  predicate IsQuoteFree(w: string) {
    forall k :: 0 <= k < |w| ==> IsNotQuote(w[k])
  }

  /** The text of a token the number scanner can produce. */
  predicate IsNumberText(w: string) {
    |w| > 0 && IsDigit(w[0]) && forall k :: 0 <= k < |w| ==> IsNumberChar(w[k])
  }

  /** The text of a token the identifier scanner can produce. */
  predicate IsWord(w: string) {
    |w| > 0 && IsAlpha(w[0]) && forall k :: 0 <= k < |w| ==> IsAlnum(w[k])
  }

  /** The kinds the word scanner produces: identifiers and keywords. */
  predicate IsWordKind(k: TokenKind) {
    k == Identifier || k == Print || k == IntType || k == FloatType
    || k == StringType || k == IfType || k == ElseType
  }

  /** The kinds the operator and punctuation scanner produces. */
  predicate IsSymbolKind(k: TokenKind) {
    k == Plus || k == Minus || k == Star || k == Slash || k == LParen || k == RParen
    || k == Semicolon || k == Equal || k == DoubleEqual || k == BangEqual
  }

  /** The tokens the scanning loop can push, kind by kind. */
  predicate Lexed(t: Token) {
    if t.kind == Number then IsNumberText(t.text)
    else if t.kind == StringLiteral then IsQuoteFree(t.text) || |t.text| == 1
    else if IsWordKind(t.kind) then IsWord(t.text) && KeywordKind(t.text) == t.kind
    else if IsSymbolKind(t.kind) then t.text == Spelling(t.kind)
    else false
  }

  /** A token list as `tokenize` returns it: scanned tokens, then End. */
  predicate WellLexed(ts: seq<Token>) {
    && |ts| > 0
    && ts[|ts| - 1] == EndToken
    && forall k :: 0 <= k < |ts| - 1 ==> Lexed(ts[k])
  }

  /** `peek()` with the cursor at i. */
  function CharAt(s: string, i: nat): char {
    if i < |s| then s[i] else NUL
  }

  /** The cursor after `get()` at i: one further, unless already at the end. */
  function Next(s: string, i: nat): nat {
    if i < |s| then i + 1 else i
  }

  /** The end of the longest run of characters satisfying p from i on. */
  function Span(s: string, i: nat, p: char -> bool): (j: nat)
    requires i <= |s|
    ensures i <= j <= |s|
    ensures forall k :: i <= k < j ==> p(s[k])
    ensures j < |s| ==> !p(s[j])
    decreases |s| - i
  {
    if i < |s| && p(s[i]) then Span(s, i + 1, p) else i
  }

  /** Where `skipWhitespace` leaves a cursor at i. */
  function SkipWs(s: string, i: nat): nat
    requires i <= |s|
  {
    Span(s, i, IsSpace)
  }

  /** The keyword table: the kind of token an alphanumeric run becomes. */
  function KeywordKind(id: string): TokenKind {
    if id == "smile" then Print
    else if id == "int" then IntType
    else if id == "float" then FloatType
    else if id == "string" then StringType
    else if id == "ana" then IfType
    else if id == "elsa" then ElseType
    else Identifier
  }

  /** The one-character operators and punctuation of the `switch`. */
  function SingleCharKind(c: char): Option<TokenKind> {
    match c
    case '+' => Some(Plus)
    case '-' => Some(Minus)
    case '*' => Some(Star)
    case '/' => Some(Slash)
    case '(' => Some(LParen)
    case ')' => Some(RParen)
    case ';' => Some(Semicolon)
    case _ => None
  }

  /** A character literal whose opening quote is at i. The character after
      the quote is read first; only then is a backslash looked for, and if
      there is one the character after it replaces the one read. */
  function CharLiteral(s: string, i: nat): (r: Result<(seq<Token>, nat)>)
    requires i < |s| && s[i] == '\''
    ensures r.Success? ==> i < r.value.1 <= |s| && |r.value.0| == 1
  {
    var afterQuote := i + 1;
    var first := CharAt(s, afterQuote);
    var afterFirst := Next(s, afterQuote);
    var escaped := CharAt(s, afterFirst) == '\\';
    var ch := if escaped then CharAt(s, afterFirst + 1) else first;
    var close := if escaped then Next(s, afterFirst + 1) else afterFirst;
    if CharAt(s, close) == '\'' then Success(([Token(StringLiteral, [ch])], close + 1))
    else Failure(UnterminatedChar)
  }

  /** One iteration of the scanning loop with the cursor at i: the tokens it
      pushes (none or one) and where it leaves the cursor. */
  function Step(s: string, i: nat): (r: Result<(seq<Token>, nat)>)
    requires i < |s|
    ensures r.Success? ==> i < r.value.1 <= |s| && |r.value.0| <= 1
  {
    var c := s[i];
    if IsDigit(c) then
      var j := Span(s, i, IsNumberChar);
      Success(([Token(Number, s[i..j])], j))
    else if c == '"' then
      var j := Span(s, i + 1, IsNotQuote);
      if j < |s| then Success(([Token(StringLiteral, s[i + 1..j])], j + 1))
      else Failure(UnterminatedString)
    else if c == '\'' then
      CharLiteral(s, i)
    else if IsAlpha(c) then
      var j := Span(s, i, IsAlnum);
      Success(([Token(KeywordKind(s[i..j]), s[i..j])], j))
    else if c == '=' then
      if CharAt(s, i + 1) == '=' then Success(([Token(DoubleEqual, "==")], i + 2))
      else Success(([Token(Equal, "=")], i + 1))
    else if c == '!' then
      if CharAt(s, i + 1) == '=' then Success(([Token(BangEqual, "!=")], i + 2))
      else Success(([], i + 1))
    else if SingleCharKind(c).Some? then
      Success(([Token(SingleCharKind(c).value, [c])], i + 1))
    else
      Success(([], i + 1))
  }

  /** The tokens scanned from cursor i on, ending with the End sentinel. */
  function LexFrom(s: string, i: nat): Result<seq<Token>>
    requires i <= |s|
    decreases |s| - i
  {
    if i == |s| then Success([EndToken])
    else
      var step :- Step(s, i);
      Prepend(step.0, LexFrom(s, SkipWs(s, step.1)))
  }

  /** `tokenize()` on a fresh lexer. */
  function Tokenize(s: string): Result<seq<Token>> {
    LexFrom(s, SkipWs(s, 0))
  }

  function Prepend(toks: seq<Token>, r: Result<seq<Token>>): Result<seq<Token>> {
    match r
    case Success(rest) => Success(toks + rest)
    case Failure(e) => Failure(e)
  }

  lemma PrependNothing(r: Result<seq<Token>>)
    ensures Prepend([], r) == r
  {
    if r.Success? {
      assert [] + r.value == r.value;
    }
  }

  lemma PrependTwice(a: seq<Token>, b: seq<Token>, r: Result<seq<Token>>)
    ensures Prepend(a, Prepend(b, r)) == Prepend(a + b, r)
  {
    if r.Success? {
      assert a + (b + r.value) == a + b + r.value;
    }
  }

  /** A failing step fails the whole scan with its message. */
  lemma LexFromFails(s: string, i: nat)
    requires i < |s| && Step(s, i).Failure?
    ensures LexFrom(s, i) == Failure(Step(s, i).error)
  {
  }

  /** A succeeding step prepends its tokens to the scan of the rest. */
  lemma LexFromSteps(s: string, i: nat)
    requires i < |s| && Step(s, i).Success?
    ensures LexFrom(s, i) == Prepend(Step(s, i).value.0, LexFrom(s, SkipWs(s, Step(s, i).value.1)))
  {
  }

  class Lexer {
    const source: string
    var pos: nat

    constructor (src: string)
      requires IsAscii(src)
      ensures Valid() && source == src && pos == 0
    {
      source := src;
      pos := 0;
    }

    ghost predicate Valid()
      reads this
    {
      pos <= |source| && IsAscii(source)
    }

    function Peek(): char
      reads this
    {
      CharAt(source, pos)
    }

    predicate IsAtEnd()
      reads this
    {
      pos >= |source|
    }

    method Get() returns (c: char)
      requires Valid()
      modifies this
      ensures Valid()
      ensures c == old(Peek()) && pos == Next(source, old(pos))
    {
      if pos < |source| {
        c := source[pos];
        pos := pos + 1;
      } else {
        c := NUL;
      }
    }

    method SkipWhitespace()
      requires Valid()
      modifies this
      ensures Valid() && pos == SkipWs(source, old(pos))
    {
      while IsSpace(Peek())
        invariant Valid() && old(pos) <= pos
        invariant SkipWs(source, pos) == SkipWs(source, old(pos))
        decreases |source| - pos
      {
        var _ := Get();
      }
    }

    /** The scanning step that the cursor's move from `start` to `pos` and
        the tokens `r` carries amount to. */
    ghost predicate Stepped(start: nat, r: Result<seq<Token>>)
      reads this
      requires start < |source|
    {
      match Step(source, start)
      case Success(st) => r == Success(st.0) && pos == st.1
      case Failure(e) => r == Failure(e)
    }

    /** A number: the maximal run of digits and decimal points. */
    method ScanNumber() returns (r: Result<seq<Token>>)
      requires Valid() && pos < |source| && IsDigit(Peek())
      modifies this
      ensures Valid() && Stepped(old(pos), r)
    {
      ghost var start := pos;
      var num := "";
      while IsDigit(Peek()) || Peek() == '.'
        invariant Valid() && start <= pos
        invariant num == source[start..pos]
        invariant Span(source, pos, IsNumberChar) == Span(source, start, IsNumberChar)
        decreases |source| - pos
      {
        var ch := Get();
        num := num + [ch];
      }
      r := Success([Token(Number, num)]);
    }

    /** A double-quoted literal: everything up to the next quote, verbatim. */
    method ScanString() returns (r: Result<seq<Token>>)
      requires Valid() && pos < |source| && Peek() == '"'
      modifies this
      ensures Valid() && Stepped(old(pos), r)
    {
      ghost var start := pos;
      var _ := Get();
      var str := "";
      while Peek() != '"' && !IsAtEnd()
        invariant Valid() && start < pos
        invariant str == source[start + 1..pos]
        invariant Span(source, pos, IsNotQuote) == Span(source, start + 1, IsNotQuote)
        decreases |source| - pos
      {
        var ch := Get();
        str := str + [ch];
      }
      var close := Get();
      if close != '"' {
        return Failure(UnterminatedString);
      }
      r := Success([Token(StringLiteral, str)]);
    }

    /** A single-quoted character literal. */
    method ScanChar() returns (r: Result<seq<Token>>)
      requires Valid() && pos < |source| && Peek() == '\''
      modifies this
      ensures Valid() && Stepped(old(pos), r)
    {
      var _ := Get();
      var ch := Get();
      if Peek() == '\\' {
        var _ := Get();
        ch := Get();
      }
      var close := Get();
      if close != '\'' {
        return Failure(UnterminatedChar);
      }
      r := Success([Token(StringLiteral, [ch])]);
    }

    /** An identifier or keyword: the maximal alphanumeric run. */
    method ScanWord() returns (r: Result<seq<Token>>)
      requires Valid() && pos < |source| && IsAlpha(Peek())
      modifies this
      ensures Valid() && Stepped(old(pos), r)
    {
      ghost var start := pos;
      var id := "";
      while IsAlnum(Peek())
        invariant Valid() && start <= pos
        invariant id == source[start..pos]
        invariant Span(source, pos, IsAlnum) == Span(source, start, IsAlnum)
        decreases |source| - pos
      {
        var ch := Get();
        id := id + [ch];
      }
      r := Success([Token(KeywordKind(id), id)]);
    }

    /** The `switch` over operators and punctuation; anything else is skipped. */
    method ScanSymbol() returns (r: Result<seq<Token>>)
      requires Valid() && pos < |source|
      requires !IsDigit(Peek()) && Peek() != '"' && Peek() != '\'' && !IsAlpha(Peek())
      modifies this
      ensures Valid() && Stepped(old(pos), r)
    {
      var c := Peek();
      match c {
        case '=' =>
          var _ := Get();
          if Peek() == '=' {
            var _ := Get();
            r := Success([Token(DoubleEqual, "==")]);
          } else {
            r := Success([Token(Equal, "=")]);
          }
        case '!' =>
          var _ := Get();
          if Peek() == '=' {
            var _ := Get();
            r := Success([Token(BangEqual, "!=")]);
          } else {
            r := Success([]);
          }
        case _ =>
          var ch := Get();
          var kind := SingleCharKind(c);
          if kind.Some? {
            r := Success([Token(kind.value, [ch])]);
          } else {
            r := Success([]);
          }
      }
    }

    /** One pass of the scanning loop's body, dispatching on the character
        under the cursor. */
    method ScanToken() returns (r: Result<seq<Token>>)
      requires Valid() && pos < |source|
      modifies this
      ensures Valid() && Stepped(old(pos), r)
    {
      var c := Peek();
      if IsDigit(c) {
        r := ScanNumber();
      } else if c == '"' {
        r := ScanString();
      } else if c == '\'' {
        r := ScanChar();
      } else if IsAlpha(c) {
        r := ScanWord();
      } else {
        r := ScanSymbol();
      }
    }

    method Tokenize() returns (r: Result<seq<Token>>)
      requires Valid()
      modifies this
      ensures r == LexFrom(source, SkipWs(source, old(pos)))
      ensures r.Success? ==> pos == |source|
    {
      ghost var whole := LexFrom(source, SkipWs(source, pos));
      var tokens: seq<Token> := [];
      SkipWhitespace();
      PrependNothing(LexFrom(source, pos));
      while pos < |source|
        invariant Valid()
        invariant whole == Prepend(tokens, LexFrom(source, pos))
        decreases |source| - pos
      {
        ghost var at := pos;
        var scanned := ScanToken();
        if scanned.Failure? {
          LexFromFails(source, at);
          return Failure(scanned.error);
        }
        LexFromSteps(source, at);
        PrependTwice(tokens, scanned.value, LexFrom(source, SkipWs(source, pos)));
        tokens := tokens + scanned.value;
        SkipWhitespace();
      }
      r := Success(tokens + [EndToken]);
    }
  }
}
