/** What the scanner of lexer.cpp guarantees about the tokens it produces. */
module LexingProps {
  import opened Wrappers
  import opened Tokens
  import opened Lexing

  // ---------------------------------------------------------------------
  // One scanning step
  // ---------------------------------------------------------------------

  /** A digit starts a Number token: the longest run of digits and points. */
  lemma StepNumber(s: string, i: nat)
    requires i < |s| && IsDigit(s[i])
    ensures var j := Span(s, i, IsNumberChar);
      && Step(s, i) == Success(([Token(Number, s[i..j])], j))
      && IsNumberText(s[i..j])
      && (j == |s| || !IsNumberChar(s[j]))
  {
  }

  /** A letter starts an alphanumeric run that the keyword table classifies;
      `while` is not in the table and is an Identifier. */
  lemma StepWord(s: string, i: nat)
    requires i < |s| && IsAlpha(s[i])
    ensures var j := Span(s, i, IsAlnum);
      && Step(s, i) == Success(([Token(KeywordKind(s[i..j]), s[i..j])], j))
      && IsWord(s[i..j])
      && (j == |s| || !IsAlnum(s[j]))
  {
  }

  lemma KeywordTable()
    ensures KeywordKind("smile") == Print
    ensures KeywordKind("int") == IntType
    ensures KeywordKind("float") == FloatType
    ensures KeywordKind("string") == StringType
    ensures KeywordKind("ana") == IfType
    ensures KeywordKind("elsa") == ElseType
    ensures KeywordKind("while") == Identifier
    ensures forall w :: KeywordKind(w) != Identifier ==> w == Spelling(KeywordKind(w))
  {
  }

  /** A double quote starts a literal holding exactly the characters up to
      the next double quote; with none left the scan fails. */
  lemma StepString(s: string, i: nat)
    requires i < |s| && s[i] == '"'
    ensures Step(s, i).Success? <==> exists j :: i < j < |s| && s[j] == '"'
    ensures Step(s, i).Failure? ==> Step(s, i).error == UnterminatedString
    ensures Step(s, i).Success? ==>
      var j := Step(s, i).value.1 - 1;
      && i < j < |s| && s[j] == '"'
      && Step(s, i).value.0 == [Token(StringLiteral, s[i + 1..j])]
      && IsQuoteFree(s[i + 1..j])
  {
    var j := Span(s, i + 1, IsNotQuote);
    if exists j' :: i < j' < |s| && s[j'] == '"' {
      var j' :| i < j' < |s| && s[j'] == '"';
      assert j <= j';
    }
  }

  /** `'c'` yields the one-character literal c when no backslash follows c;
      when one does, the character after the backslash replaces c. Past the
      end of the text `get` and `peek` give NUL, so a literal cut off by the
      end fails like one whose closing quote is missing. */
  lemma StepChar(s: string, i: nat)
    requires i < |s| && s[i] == '\''
    ensures CharAt(s, i + 2) != '\\' ==>
      Step(s, i) == if CharAt(s, i + 2) == '\'' then Success(([Token(StringLiteral, [CharAt(s, i + 1)])], i + 3))
                    else Failure(UnterminatedChar)
    ensures CharAt(s, i + 2) == '\\' ==>
      Step(s, i) == if CharAt(s, i + 4) == '\'' then Success(([Token(StringLiteral, [CharAt(s, i + 3)])], i + 5))
                    else Failure(UnterminatedChar)
  {
  }

  /** Literals cut off by the end of the text. */
  lemma CharCutOff()
    ensures Step("'", 0) == Failure(UnterminatedChar)
    ensures Step("'a", 0) == Failure(UnterminatedChar)
    ensures Step("'a\\", 0) == Failure(UnterminatedChar)
    ensures Step("'a\\b", 0) == Failure(UnterminatedChar)
  {
  }

  /** Because the backslash is looked for only after the character following
      the quote has been read, the escape `'\n'` is not accepted, while
      `'a\b'` yields the literal b. */
  lemma CharEscapeAsWritten()
    ensures Step("'\\n'", 0) == Failure(UnterminatedChar)
    ensures Step("'a\\b'", 0) == Success(([Token(StringLiteral, "b")], 5))
  {
  }

  /** `==` is one DoubleEqual token and a lone `=` is Equal; `!=` is
      BangEqual and a lone `!` produces nothing. */
  lemma StepEqualsAndBang(s: string, i: nat)
    requires i < |s|
    ensures s[i] == '=' ==>
      Step(s, i) == if i + 1 < |s| && s[i + 1] == '=' then Success(([Token(DoubleEqual, "==")], i + 2))
                    else Success(([Token(Equal, "=")], i + 1))
    ensures s[i] == '!' ==>
      Step(s, i) == if i + 1 < |s| && s[i + 1] == '=' then Success(([Token(BangEqual, "!=")], i + 2))
                    else Success(([], i + 1))
  {
  }

  /** A character that starts no token. */
  predicate Inert(c: char) {
    IsSpace(c) ||
    (!IsDigit(c) && !IsAlpha(c) && c != '"' && c != '\'' && c != '=' && c != '!' && SingleCharKind(c).None?)
  }

  /** An unrecognised character is skipped without a token. */
  lemma StepSkipsUnknown(s: string, i: nat)
    requires i < |s| && Inert(s[i]) && !IsSpace(s[i])
    ensures Step(s, i) == Success(([], i + 1))
  {
  }

  // ---------------------------------------------------------------------
  // The whole token list
  // ---------------------------------------------------------------------

  lemma {:induction false} StepLexed(s: string, i: nat)
    requires i < |s|
    ensures Step(s, i).Success? ==> forall k :: 0 <= k < |Step(s, i).value.0| ==> Lexed(Step(s, i).value.0[k])
  {
    var c := s[i];
    if IsDigit(c) {
      StepNumber(s, i);
    } else if c == '"' {
      StepString(s, i);
    } else if c == '\'' {
    } else if IsAlpha(c) {
      StepWord(s, i);
    } else if SingleCharKind(c).Some? && c != '=' && c != '!' {
      assert Spelling(SingleCharKind(c).value) == [c];
    }
  }

  lemma {:induction false} LexFromWellLexed(s: string, i: nat)
    requires i <= |s|
    ensures LexFrom(s, i).Success? ==> WellLexed(LexFrom(s, i).value)
    decreases |s| - i
  {
    if i < |s| && Step(s, i).Success? {
      var step := Step(s, i).value;
      StepLexed(s, i);
      LexFromWellLexed(s, SkipWs(s, step.1));
    }
  }

  /** The token list is never empty, ends with End whose text is empty, has
      End nowhere else, and every other token is one the scanner makes. */
  lemma TokenizeShape(s: string)
    ensures Tokenize(s).Success? ==>
      var ts := Tokenize(s).value;
      && WellLexed(ts)
      && |ts| > 0 && ts[|ts| - 1].kind == End && ts[|ts| - 1].text == ""
      && forall k :: 0 <= k < |ts| - 1 ==> ts[k].kind != End
  {
    LexFromWellLexed(s, SkipWs(s, 0));
  }

  /** The scan fails only on an unterminated literal, so a source without
      quote characters always scans. */
  lemma {:induction false} LexFromFailures(s: string, i: nat)
    requires i <= |s|
    ensures LexFrom(s, i).Failure? ==>
      LexFrom(s, i).error == UnterminatedString || LexFrom(s, i).error == UnterminatedChar
    ensures (forall k :: i <= k < |s| ==> s[k] != '"' && s[k] != '\'') ==> LexFrom(s, i).Success?
    decreases |s| - i
  {
    if i < |s| && Step(s, i).Success? {
      LexFromFailures(s, SkipWs(s, Step(s, i).value.1));
    }
  }

  lemma TokenizeFailures(s: string)
    ensures Tokenize(s).Failure? ==>
      Tokenize(s).error == UnterminatedString || Tokenize(s).error == UnterminatedChar
    ensures (forall k :: 0 <= k < |s| ==> s[k] != '"' && s[k] != '\'') ==> Tokenize(s).Success?
  {
    LexFromFailures(s, SkipWs(s, 0));
  }

  /** Whitespace and unrecognised characters never produce a token. */
  lemma {:induction false} InertFrom(s: string, i: nat)
    requires i <= |s|
    requires forall k :: i <= k < |s| ==> Inert(s[k])
    ensures LexFrom(s, i) == Success([EndToken])
    decreases |s| - i
  {
    if i < |s| {
      assert Step(s, i) == Success(([], i + 1));
      InertFrom(s, SkipWs(s, i + 1));
      assert [] + [EndToken] == [EndToken];
    }
  }

  lemma InertSource(s: string)
    requires forall k :: 0 <= k < |s| ==> Inert(s[k])
    ensures Tokenize(s) == Success([EndToken])
  {
    InertFrom(s, SkipWs(s, 0));
  }

  // ---------------------------------------------------------------------
  // Round trip: the scanner inverts rendering tokens apart by blanks
  // ---------------------------------------------------------------------

  /** The source text of one token. */
  function Spell(t: Token): string {
    if t.kind == StringLiteral then "\"" + t.text + "\"" else t.text
  }

  /** Tokens written out, each followed by one blank. */
  function Render(ts: seq<Token>): string {
    if ts == [] then "" else Spell(ts[0]) + " " + Render(ts[1..])
  }

  /** Every token of ts is renderable (stated by recursion, which keeps the
      round-trip proof from instantiating a quantifier at every index). */
  predicate AllRenderable(ts: seq<Token>) {
    ts == [] || (Renderable(ts[0]) && AllRenderable(ts[1..]))
  }

  lemma {:induction false} AllRenderableFromEach(ts: seq<Token>)
    requires forall k :: 0 <= k < |ts| ==> Renderable(ts[k])
    ensures AllRenderable(ts)
    decreases |ts|
  {
    if ts != [] {
      assert forall k :: 0 <= k < |ts[1..]| ==> ts[1..][k] == ts[k + 1];
      AllRenderableFromEach(ts[1..]);
    }
  }

  /** A scanned token that a double-quoted literal can spell. */
  predicate Renderable(t: Token) {
    Lexed(t) && (t.kind == StringLiteral ==> IsQuoteFree(t.text))
  }

  lemma {:induction false} SpanExact(s: string, i: nat, j: nat, p: char -> bool)
    requires i <= j <= |s|
    requires forall k :: i <= k < j ==> p(s[k])
    requires j < |s| ==> !p(s[j])
    ensures Span(s, i, p) == j
    decreases j - i
  {
    if i < j {
      SpanExact(s, i + 1, j, p);
    }
  }

  lemma SpellStartsToken(t: Token)
    requires Renderable(t)
    ensures |Spell(t)| > 0 && !IsSpace(Spell(t)[0])
  {
  }

  /** A renderable token followed by a blank is scanned back by one step. */
  lemma StepSpell(s: string, i: nat, t: Token, k: nat)
    requires Renderable(t)
    requires k == i + |Spell(t)| && k < |s| && s[i..k] == Spell(t) && s[k] == ' '
    ensures Step(s, i) == Success(([t], k))
  {
    if t.kind == Number {
      StepSpellNumber(s, i, t);
    } else if t.kind == StringLiteral {
      StepSpellString(s, i, t);
    } else if IsWordKind(t.kind) {
      StepSpellWord(s, i, t);
    } else {
      StepSpellSymbol(s, i, t);
    }
  }

  lemma StepSpellNumber(s: string, i: nat, t: Token)
    requires Renderable(t) && t.kind == Number
    requires i + |t.text| < |s| && s[i..i + |t.text|] == t.text && s[i + |t.text|] == ' '
    ensures Step(s, i) == Success(([t], i + |t.text|))
  {
    var w := t.text;
    assert s[i] == w[0];
    assert forall k :: i <= k < i + |w| ==> s[k] == w[k - i];
    SpanExact(s, i, i + |w|, IsNumberChar);
  }

  lemma StepSpellWord(s: string, i: nat, t: Token)
    requires Renderable(t) && IsWord(t.text) && KeywordKind(t.text) == t.kind
    requires i + |t.text| < |s| && s[i..i + |t.text|] == t.text && s[i + |t.text|] == ' '
    ensures Step(s, i) == Success(([t], i + |t.text|))
  {
    var w := t.text;
    assert s[i] == w[0];
    assert forall k :: i <= k < i + |w| ==> s[k] == w[k - i];
    SpanExact(s, i, i + |w|, IsAlnum);
  }

  lemma StepSpellString(s: string, i: nat, t: Token)
    requires Renderable(t) && t.kind == StringLiteral
    requires i + |Spell(t)| < |s| && s[i..i + |Spell(t)|] == Spell(t) && s[i + |Spell(t)|] == ' '
    ensures Step(s, i) == Success(([t], i + |Spell(t)|))
  {
    var w, n := Spell(t), |t.text|;
    assert |w| == n + 2;
    assert s[i] == w[0] == '"';
    assert s[i + 1 + n] == w[n + 1] == '"';
    assert forall k :: i + 1 <= k < i + 1 + n ==> s[k] == w[k - i] == t.text[k - i - 1];
    SpanExact(s, i + 1, i + 1 + n, IsNotQuote);
    assert s[i + 1..i + 1 + n] == t.text;
  }

  lemma StepSpellSymbol(s: string, i: nat, t: Token)
    requires Renderable(t) && t.text == Spelling(t.kind)
    requires IsSymbolKind(t.kind)
    requires i + |t.text| < |s| && s[i..i + |t.text|] == t.text && s[i + |t.text|] == ' '
    ensures Step(s, i) == Success(([t], i + |t.text|))
  {
    var w := t.text;
    assert s[i] == w[0];
    if |w| == 2 {
      assert s[i + 1] == w[1];
    } else {
      assert s[i + 1] == ' ';
    }
  }

  /** From cursor i on, s holds the tokens ts, each spelled out and followed
      by one blank, and nothing after them. */
  predicate RendersAt(s: string, i: nat, ts: seq<Token>)
    decreases |ts|
  {
    if ts == [] then i == |s|
    else
      var k := i + |Spell(ts[0])|;
      && k < |s| && s[i..k] == Spell(ts[0]) && s[k] == ' '
      && RendersAt(s, k + 1, ts[1..])
  }

  /** Rendering after any prefix lays the tokens out as RendersAt says. */
  lemma {:induction false} RendersAfter(pre: string, ts: seq<Token>)
    ensures RendersAt(pre + Render(ts), |pre|, ts)
    decreases |ts|
  {
    var s := pre + Render(ts);
    if ts != [] {
      var w := Spell(ts[0]);
      var k := |pre| + |w|;
      var pre' := pre + w + " ";
      Regroup(pre, w, Render(ts[1..]));
      RendersAfter(pre', ts[1..]);
    }
  }

  lemma Regroup(pre: string, w: string, rest: string)
    ensures pre + (w + " " + rest) == pre + w + " " + rest
    ensures (pre + w + " " + rest)[|pre|..|pre| + |w|] == w
    ensures (pre + w + " " + rest)[|pre| + |w|] == ' '
  {
  }

  /** The first character of a rendered list is the first token's first. */
  lemma RendersNoBlank(s: string, i: nat, ts: seq<Token>)
    requires RendersAt(s, i, ts) && ts != [] && Renderable(ts[0])
    ensures i < |s| && !IsSpace(s[i])
  {
    SpellStartsToken(ts[0]);
    assert s[i] == s[i..i + |Spell(ts[0])|][0];
  }

  /** The layout of a rendered list at its first token: the token's
      spelling, one blank, and the rest, which starts with no blank. */
  lemma RenderHead(s: string, i: nat, ts: seq<Token>, k: nat)
    requires RendersAt(s, i, ts) && ts != [] && AllRenderable(ts)
    requires k == i + |Spell(ts[0])|
    ensures Renderable(ts[0]) && k < |s| && s[i..k] == Spell(ts[0]) && s[k] == ' '
    ensures k + 1 < |s| ==> !IsSpace(s[k + 1])
    ensures RendersAt(s, k + 1, ts[1..]) && AllRenderable(ts[1..])
  {
    RenderableHeads(ts);
    if |ts| > 1 {
      RendersNoBlank(s, k + 1, ts[1..]);
    }
  }

  /** A spelled token followed by one blank and then no further blank is
      scanned as that token, and scanning resumes after the blank. */
  lemma ScanSpelled(s: string, i: nat, t: Token, k: nat)
    requires Renderable(t)
    requires k == i + |Spell(t)| && k < |s| && s[i..k] == Spell(t) && s[k] == ' '
    requires k + 1 < |s| ==> !IsSpace(s[k + 1])
    ensures LexFrom(s, i) == Prepend([t], LexFrom(s, k + 1))
  {
    StepSpell(s, i, t, k);
    SpanExact(s, k, k + 1, IsSpace);
    LexFromSteps(s, i);
  }

  lemma ConsEnd(ts: seq<Token>)
    requires ts != []
    ensures [ts[0]] + (ts[1..] + [EndToken]) == ts + [EndToken]
  {
  }

  /** A source whose text from i on renders ts scans back to ts, then End. */
  lemma {:induction false} RenderFrom(s: string, i: nat, ts: seq<Token>)
    requires RendersAt(s, i, ts) && AllRenderable(ts)
    ensures LexFrom(s, i) == Success(ts + [EndToken])
    decreases |ts|
  {
    if ts == [] {
      assert ts + [EndToken] == [EndToken];
    } else {
      var k := i + |Spell(ts[0])|;
      RenderHead(s, i, ts, k);
      ScanSpelled(s, i, ts[0], k);
      RenderFrom(s, k + 1, ts[1..]);
      ConsEnd(ts);
    }
  }

  lemma RenderableHeads(ts: seq<Token>)
    requires ts != [] && AllRenderable(ts)
    ensures Renderable(ts[0]) && AllRenderable(ts[1..])
    ensures |ts| > 1 ==> Renderable(ts[1..][0])
  {
  }

  /** Tokens written apart by blanks scan back to themselves, then End. */
  lemma RenderRoundTrip(ts: seq<Token>)
    requires forall k :: 0 <= k < |ts| ==> Renderable(ts[k])
    ensures Tokenize(Render(ts)) == Success(ts + [EndToken])
  {
    var s := Render(ts);
    RendersAfter([], ts);
    assert [] + s == s;
    AllRenderableFromEach(ts);
    if ts != [] {
      RenderableHeads(ts);
      RendersNoBlank(s, 0, ts);
    }
    SpanExact(s, 0, 0, IsSpace);
    RenderFrom(s, 0, ts);
  }
}
