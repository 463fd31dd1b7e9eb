/** Properties of the parser specification: the cursor primitives, number
    conversion, precedence and associativity (as a round trip through a
    printer that inserts only the parentheses precedence demands), and the
    statement dispatch of parseStatement, parseIfStmt, parseBlockStmt and
    parseProgram. */
module ParsingProps {
  import opened Wrappers
  import opened Tokens
  import opened Ast
  import opened Parsing
  import Lexing
  import LexingProps

  // ---------------------------------------------------------------------
  // Cursor primitives
  // ---------------------------------------------------------------------

  /** Past the end of the list the current token is End with empty text. */
  lemma CurrentPastEnd(toks: seq<Token>, pos: nat)
    requires pos >= |toks|
    ensures Current(toks, pos).kind == End && Current(toks, pos).text == ""
  {
  }

  /** `consume(k)` succeeds exactly on a token of kind k, then by exactly
      one token; otherwise it reports the token it found. */
  lemma ConsumeMoves(toks: seq<Token>, pos: nat, k: TokenKind)
    ensures Consume(toks, pos, k).Success? <==> Current(toks, pos).kind == k
    ensures Consume(toks, pos, k).Success? ==> Consume(toks, pos, k).value == pos + 1
    ensures Consume(toks, pos, k).Failure? ==>
      Consume(toks, pos, k).error == "Unexpected token: " + Current(toks, pos).text
  {
  }

  // ---------------------------------------------------------------------
  // Number conversion
  // ---------------------------------------------------------------------

  predicate AllDigits(w: string) {
    forall k :: 0 <= k < |w| ==> Lexing.IsDigit(w[k])
  }

  lemma DigitOfChar(d: nat)
    requires d < 10
    ensures DigitValue(DigitChar(d)) == d
  {
  }

  /** The digits `std::to_string` writes read back as the same number. */
  lemma {:induction false} DigitsOfNat(n: nat)
    ensures AllDigits(NatToString(n)) && DigitsValue(NatToString(n)) == n
  {
    var w := NatToString(n);
    if n < 10 {
      DigitOfChar(n);
      assert w[..0] == [];
    } else {
      DigitsOfNat(n / 10);
      assert w[..|w| - 1] == NatToString(n / 10);
      DigitOfChar(n % 10);
    }
  }

  /** A point-free number text converts through `stoi`: to the value of
      its digits, leading zeros included, when that fits an `int`, and to
      `stoi`'s range error otherwise. */
  lemma NumberValueOfDigits(w: string)
    requires |w| > 0 && AllDigits(w)
    ensures Lexing.IsNumberText(w)
    ensures NumberValue(w) ==
      if DigitsValue(w) <= IntMax then Success(DigitsValue(w) as real) else Failure(StoiOutOfRange)
  {
    assert forall k :: 0 <= k < |w| ==> w[k] != '.';
    LexingProps.SpanExact(w, 0, |w|, Lexing.IsDigit);
    assert w[..|w|] == w;
  }

  /** Leading zeros are read past. */
  lemma LeadingZeros()
    ensures NumberValue("007") == Success(7.0)
  {
    assert "007"[..2] == "00" && "00"[..1] == "0" && "0"[..0] == [];
    assert DigitsValue("007") == 7;
    NumberValueOfDigits("007");
  }

  /** The digits `std::to_string` writes convert to their number. */
  lemma NumberValueOfNat(n: nat)
    ensures Lexing.IsNumberText(NatToString(n))
    ensures NumberValue(NatToString(n)) ==
      if n <= IntMax then Success(n as real) else Failure(StoiOutOfRange)
  {
    DigitsOfNat(n);
    NumberValueOfDigits(NatToString(n));
  }

  /** The digits after a decimal point add less than one. */
  lemma {:induction false} FractionBound(f: string)
    requires AllDigits(f)
    ensures 0.0 <= FractionValue(f) < 1.0
    decreases |f|
  {
    if f != [] {
      FractionBound(f[1..]);
    }
  }

  /** Where the pieces of a number text with a point sit. */
  lemma PointText(s: string, w: string, f: string, rest: string, i: nat, j: nat)
    requires s == w + "." + f + rest && i == |w| && j == i + 1 + |f|
    ensures |s| == j + |rest| && s[i] == '.'
    ensures forall k :: 0 <= k < i ==> s[k] == w[k]
    ensures forall k :: i + 1 <= k < j ==> s[k] == f[k - i - 1]
    ensures forall k :: j <= k < |s| ==> s[k] == rest[k - j]
    ensures s[..i] == w && s[i + 1..j] == f
  {
    assert s == (w + ".") + (f + rest);
  }

  /** The layout of a number text with a point: leading digits, the point,
      the fraction digits, and then nothing or a second point. */
  lemma StodLayout(s: string, w: string, f: string, rest: string, i: nat, j: nat)
    requires s == w + "." + f + rest && i == |w| && j == i + 1 + |f|
    requires |w| > 0 && AllDigits(w) && AllDigits(f)
    requires rest == [] || (rest[0] == '.' && forall k :: 0 <= k < |rest| ==> Lexing.IsNumberChar(rest[k]))
    ensures Lexing.IsNumberText(s) && s[i] == '.'
    ensures Lexing.Span(s, 0, Lexing.IsDigit) == i && s[..i] == w
    ensures Lexing.Span(s, i + 1, Lexing.IsDigit) == j && s[i + 1..j] == f
  {
    PointText(s, w, f, rest, i, j);
    assert forall k :: 0 <= k < i ==> Lexing.IsDigit(s[k]);
    assert forall k :: i + 1 <= k < j ==> Lexing.IsDigit(s[k]);
    assert forall k :: j <= k < |s| ==> Lexing.IsNumberChar(s[k]);
    LexingProps.SpanExact(s, 0, i, Lexing.IsDigit);
    LexingProps.SpanExact(s, i + 1, j, Lexing.IsDigit);
  }

  /** A text with a point converts through `stod`: the digits before the
      first point, plus the digits between it and any second point, whose
      remainder is ignored (so "1.2.3" gives 1.2 and "12." gives 12). */
  lemma StodPrefix(w: string, f: string, rest: string)
    requires |w| > 0 && AllDigits(w) && AllDigits(f)
    requires rest == [] || (rest[0] == '.' && forall k :: 0 <= k < |rest| ==> Lexing.IsNumberChar(rest[k]))
    ensures Lexing.IsNumberText(w + "." + f + rest)
    ensures NumberValue(w + "." + f + rest) == Success(DigitsValue(w) as real + FractionValue(f))
  {
    var s := w + "." + f + rest;
    var i, j := |w|, |w| + 1 + |f|;
    StodLayout(s, w, f, rest, i, j);
    StodValue(s, w, f, i, j);
  }

  lemma StodValue(s: string, w: string, f: string, i: nat, j: nat)
    requires Lexing.IsNumberText(s) && AllDigits(w) && AllDigits(f)
    requires i < |s| && s[i] == '.'
    requires Lexing.Span(s, 0, Lexing.IsDigit) == i && s[..i] == w
    requires i + 1 <= |s| && Lexing.Span(s, i + 1, Lexing.IsDigit) == j && s[i + 1..j] == f
    ensures NumberValue(s) == Success(DigitsValue(w) as real + FractionValue(f))
  {
    assert '.' in s;
  }

  /** Either conversion stores a non-negative double whose integer part is
      the value of the leading digits. */
  lemma NumberValueFloor(w: string)
    requires Lexing.IsNumberText(w)
    ensures NumberValue(w).Success? ==>
      NumberValue(w).value >= 0.0 && NumberValue(w).value.Floor == Stoi(w)
  {
    var intEnd := Lexing.Span(w, 0, Lexing.IsDigit);
    if '.' in w && intEnd < |w| {
      var f := w[intEnd + 1..Lexing.Span(w, intEnd + 1, Lexing.IsDigit)];
      FractionBound(f);
    }
  }

  // ---------------------------------------------------------------------
  // Precedence and associativity
  // ---------------------------------------------------------------------

  /** The token kind an operator string is read from. */
  function OperatorKind(op: string): TokenKind {
    if op == "==" then DoubleEqual
    else if op == "!=" then BangEqual
    else if op == "<" then Less
    else if op == "<=" then LessEqual
    else if op == ">" then Greater
    else if op == ">=" then GreaterEqual
    else if op == "+" then Plus
    else if op == "-" then Minus
    else if op == "*" then Star
    else if op == "/" then Slash
    else if op == "%" then Percent
    else Number
  }

  /** The precedence level an operator string binds at; 0 for none. */
  function Level(op: string): nat {
    OpLevel(OperatorKind(op))
  }

  /** Trees the printer can write: operators of the grammar, and numbers
      that are whole and fit an `int` (so their text reads back exactly). */
  predicate Printable(e: Expr) {
    match e
    case NumberExpr(v) => v == v.Floor as real && 0 <= v.Floor <= IntMax
    case VariableExpr(_) => true
    case StringExpr(_) => true
    case BinaryExpr(l, op, r) => Level(op) >= 1 && Printable(l) && Printable(r)
  }

  function OpToken(op: string): Token {
    Token(OperatorKind(op), op)
  }

  /** The tokens of e written where level n is parsed: an operator that
      binds looser than n is parenthesised; a left operand is written at its
      operator's own level and a right operand one level tighter, so that
      only the parentheses precedence and left associativity demand appear. */
  function Unparse(e: Expr, n: nat): seq<Token>
    requires Printable(e)
    decreases e, if e.BinaryExpr? && Level(e.op) > n then 1 else 0
  {
    match e
    case NumberExpr(v) => [Token(Number, NatToString(v.Floor as nat))]
    case VariableExpr(x) => [Token(Identifier, x)]
    case StringExpr(s) => [Token(StringLiteral, s)]
    case BinaryExpr(l, op, r) =>
      if Level(op) > n then [Token(LParen, "(")] + Unparse(e, 4) + [Token(RParen, ")")]
      else Unparse(l, Level(op)) + [OpToken(op)] + Unparse(r, Level(op) - 1)
  }

  /** toks holds u from pos on. */
  predicate At(toks: seq<Token>, pos: nat, u: seq<Token>)
    decreases u
  {
    if u == [] then pos <= |toks|
    else pos < |toks| && toks[pos] == u[0] && At(toks, pos + 1, u[1..])
  }

  lemma {:induction false} AtBound(toks: seq<Token>, pos: nat, u: seq<Token>)
    requires At(toks, pos, u)
    ensures pos + |u| <= |toks|
    decreases u
  {
    if u != [] {
      AtBound(toks, pos + 1, u[1..]);
    }
  }

  lemma {:induction false} AtAppend(toks: seq<Token>, pos: nat, a: seq<Token>, b: seq<Token>)
    ensures At(toks, pos, a + b) <==> At(toks, pos, a) && At(toks, pos + |a|, b)
    decreases a
  {
    if a == [] {
      assert a + b == b;
    } else {
      assert (a + b)[0] == a[0] && (a + b)[1..] == a[1..] + b;
      AtAppend(toks, pos + 1, a[1..], b);
      if At(toks, pos, a) {
        AtBound(toks, pos, a);
      }
    }
  }

  /** The layout of a three-part list: first part, one token, last part. */
  lemma AtThree(toks: seq<Token>, pos: nat, a: seq<Token>, t: Token, b: seq<Token>)
    requires At(toks, pos, a + [t] + b)
    ensures At(toks, pos, a) && pos + |a| < |toks| && toks[pos + |a|] == t
    ensures At(toks, pos + |a| + 1, b)
  {
    AtAppend(toks, pos, a + [t], b);
    AtAppend(toks, pos, a, [t]);
  }

  lemma {:induction false} AtConcat(u: seq<Token>, post: seq<Token>)
    ensures At(u + post, 0, u)
  {
    AtPlace([], u, post);
    assert [] + u + post == u + post;
  }

  lemma {:induction false} AtPlace(pre: seq<Token>, u: seq<Token>, post: seq<Token>)
    ensures At(pre + u + post, |pre|, u)
    decreases u
  {
    var toks := pre + u + post;
    if u != [] {
      assert toks == (pre + [u[0]]) + u[1..] + post;
      AtPlace(pre + [u[0]], u[1..], post);
    }
  }

  /** No loop of the levels 1 to n takes the token at q. */
  predicate Stops(toks: seq<Token>, q: nat, n: nat) {
    OpLevel(Current(toks, q).kind) == 0 || OpLevel(Current(toks, q).kind) > n
  }

  /** The rank that orders the two lemmas below on one tree: a
      parenthesised tree first climbs back to the loosest level. */
  function Rank(e: Expr, n: nat): nat {
    if e.BinaryExpr? && Level(e.op) > n then 10 + n else n
  }

  /** Written at level n, a tree not split at level n is the same tokens as
      written one level tighter. */
  lemma UnparseBelow(e: Expr, n: nat)
    requires Printable(e) && 1 <= n <= 4
    requires !(e.BinaryExpr? && Level(e.op) == n)
    ensures Unparse(e, n) == Unparse(e, n - 1)
  {
  }

  /** Level n parses the printed tree back, ending at q, when the token at
      q ends every loop up to level n. */
  lemma {:induction false} ParsesAt(e: Expr, n: nat, toks: seq<Token>, pos: nat, q: nat)
    requires Printable(e) && n <= 4 && NumbersWellFormed(toks)
    requires At(toks, pos, Unparse(e, n)) && q == pos + |Unparse(e, n)|
    requires Stops(toks, q, n)
    ensures q <= |toks| && ParseLevel(n, toks, pos) == Success((e, q))
    decreases e, 2 * Rank(e, n) + 1, 0
  {
    AtBound(toks, pos, Unparse(e, n));
    if n >= 1 {
      LoopsAt(e, n, toks, pos, q);
      LoopEnds(n, toks, e, q);
    } else if e.BinaryExpr? {
      ParenLayout(e, toks, pos, q);
      ParsesAt(e, 4, toks, pos + 1, q - 1);
      ParenFactor(toks, pos, e, q);
    } else {
      LeafParses(e, toks, pos, q);
    }
  }

  /** Level n parses the printed tree, ending at q, and then carries on
      with its loop there, when no lower level's loop takes the token at q. */
  lemma {:induction false} LoopsAt(e: Expr, n: nat, toks: seq<Token>, pos: nat, q: nat)
    requires Printable(e) && 1 <= n <= 4 && NumbersWellFormed(toks)
    requires At(toks, pos, Unparse(e, n)) && q == pos + |Unparse(e, n)|
    requires Stops(toks, q, n - 1)
    ensures q <= |toks| && ParseLevel(n, toks, pos) == LevelLoop(n, toks, e, q)
    decreases e, 2 * Rank(e, n), 1
  {
    if e.BinaryExpr? && Level(e.op) == n {
      LoopsSplit(e, n, toks, pos, q);
    } else {
      LoopsBelow(e, n, toks, pos, q);
    }
  }

  /** A tree split at level n: the loop has already taken its left operand
      and takes its operator and right operand. */
  lemma {:induction false} LoopsSplit(e: Expr, n: nat, toks: seq<Token>, pos: nat, q: nat)
    requires Printable(e) && 1 <= n <= 4 && NumbersWellFormed(toks)
    requires e.BinaryExpr? && Level(e.op) == n
    requires At(toks, pos, Unparse(e, n)) && q == pos + |Unparse(e, n)|
    requires Stops(toks, q, n - 1)
    ensures q <= |toks| && ParseLevel(n, toks, pos) == LevelLoop(n, toks, e, q)
    decreases e, 2 * Rank(e, n), 0
  {
    var q1 := pos + |Unparse(e.left, n)|;
    SplitLayout(e, n, toks, pos, q1, q);
    LoopsAt(e.left, n, toks, pos, q1);
    ParsesAt(e.right, n - 1, toks, q1 + 1, q);
    LoopTakes(n, toks, e.left, e.op, e.right, q1, q);
  }

  /** A tree not split at level n is the first operand of level n's loop. */
  lemma {:induction false} LoopsBelow(e: Expr, n: nat, toks: seq<Token>, pos: nat, q: nat)
    requires Printable(e) && 1 <= n <= 4 && NumbersWellFormed(toks)
    requires !(e.BinaryExpr? && Level(e.op) == n)
    requires At(toks, pos, Unparse(e, n)) && q == pos + |Unparse(e, n)|
    requires Stops(toks, q, n - 1)
    ensures q <= |toks| && ParseLevel(n, toks, pos) == LevelLoop(n, toks, e, q)
    decreases e, 2 * Rank(e, n), 0
  {
    AtBound(toks, pos, Unparse(e, n));
    UnparseBelow(e, n);
    ParsesAt(e, n - 1, toks, pos, q);
    LevelStarts(n, toks, pos, e, q);
  }

  /** The tokens of a tree split at level n: left operand, operator, right
      operand; the operator's level stops the loops below n. */
  lemma SplitLayout(e: Expr, n: nat, toks: seq<Token>, pos: nat, q1: nat, q: nat)
    requires Printable(e) && e.BinaryExpr? && Level(e.op) == n && 1 <= n <= 4
    requires At(toks, pos, Unparse(e, n)) && q == pos + |Unparse(e, n)|
    requires q1 == pos + |Unparse(e.left, n)|
    ensures Printable(e.left) && Printable(e.right)
    ensures At(toks, pos, Unparse(e.left, n)) && q1 < |toks| && toks[q1] == OpToken(e.op)
    ensures Stops(toks, q1, n - 1)
    ensures At(toks, q1 + 1, Unparse(e.right, n - 1)) && q == q1 + 1 + |Unparse(e.right, n - 1)|
  {
    assert Unparse(e, n) == Unparse(e.left, n) + [OpToken(e.op)] + Unparse(e.right, n - 1);
    AtThree(toks, pos, Unparse(e.left, n), OpToken(e.op), Unparse(e.right, n - 1));
  }

  /** The tokens of a parenthesised tree: `(`, the tree at level 4, `)`. */
  lemma ParenLayout(e: Expr, toks: seq<Token>, pos: nat, q: nat)
    requires Printable(e) && e.BinaryExpr?
    requires At(toks, pos, Unparse(e, 0)) && q == pos + |Unparse(e, 0)|
    ensures pos < |toks| && toks[pos] == Token(LParen, "(")
    ensures At(toks, pos + 1, Unparse(e, 4)) && q - 1 == pos + 1 + |Unparse(e, 4)|
    ensures q - 1 < |toks| && toks[q - 1] == Token(RParen, ")") && Stops(toks, q - 1, 4)
  {
    assert Unparse(e, 0) == [Token(LParen, "(")] + Unparse(e, 4) + [Token(RParen, ")")];
    AtBetween(toks, pos, Token(LParen, "("), Unparse(e, 4), Token(RParen, ")"));
  }

  lemma AtBetween(toks: seq<Token>, pos: nat, x: Token, m: seq<Token>, y: Token)
    requires At(toks, pos, [x] + m + [y])
    ensures pos < |toks| && toks[pos] == x && At(toks, pos + 1, m)
    ensures pos + 1 + |m| < |toks| && toks[pos + 1 + |m|] == y
  {
    AtAppend(toks, pos, [x] + m, [y]);
    AtAppend(toks, pos, [x], m);
    AtBound(toks, pos + 1 + |m|, [y]);
  }

  /** A parenthesised expression is a factor. */
  lemma ParenFactor(toks: seq<Token>, pos: nat, e: Expr, q: nat)
    requires pos < |toks| && NumbersWellFormed(toks) && toks[pos].kind == LParen
    requires 0 < q <= |toks| && ParseLevel(4, toks, pos + 1) == Success((e, q - 1))
    requires toks[q - 1].kind == RParen
    ensures ParseLevel(0, toks, pos) == Success((e, q))
  {
    assert Current(toks, pos) == toks[pos];
    assert ParseExpression(toks, pos + 1) == Success((e, q - 1));
    assert Current(toks, q - 1) == toks[q - 1];
    assert Consume(toks, q - 1, RParen) == Success(q);
  }

  /** A leaf is a factor of one token. */
  lemma LeafParses(e: Expr, toks: seq<Token>, pos: nat, q: nat)
    requires Printable(e) && !e.BinaryExpr? && NumbersWellFormed(toks)
    requires At(toks, pos, Unparse(e, 0)) && q == pos + |Unparse(e, 0)|
    ensures q <= |toks| && ParseLevel(0, toks, pos) == Success((e, q))
  {
    if e.NumberExpr? {
      NumberValueOfNat(e.num.Floor as nat);
    }
  }

  /** Level n's loop ends at a token that is not one of its operators. */
  lemma LoopEnds(n: nat, toks: seq<Token>, e: Expr, q: nat)
    requires 1 <= n <= 4 && q <= |toks| && NumbersWellFormed(toks) && Stops(toks, q, n)
    ensures LevelLoop(n, toks, e, q) == Success((e, q))
  {
  }

  /** Level n starts with the operand one level down, then loops. */
  lemma LevelStarts(n: nat, toks: seq<Token>, pos: nat, e: Expr, q: nat)
    requires 1 <= n <= 4 && pos <= |toks| && NumbersWellFormed(toks)
    requires ParseLevel(n - 1, toks, pos) == Success((e, q))
    ensures q <= |toks| && ParseLevel(n, toks, pos) == LevelLoop(n, toks, e, q)
  {
  }

  /** One pass of level n's loop over an operator of that level. */
  lemma LoopTakes(n: nat, toks: seq<Token>, l: Expr, op: string, r: Expr, q1: nat, q: nat)
    requires 1 <= n <= 4 && q1 < |toks| && NumbersWellFormed(toks)
    requires toks[q1] == OpToken(op) && Level(op) == n
    requires ParseLevel(n - 1, toks, q1 + 1) == Success((r, q))
    ensures q <= |toks| && LevelLoop(n, toks, l, q1) == LevelLoop(n, toks, BinaryExpr(l, op, r), q)
  {
  }

  /** Every Number token the printer writes is one the lexer can produce. */
  lemma {:induction false} UnparseNumbers(e: Expr, n: nat)
    requires Printable(e)
    ensures NumbersWellFormed(Unparse(e, n))
    decreases e, if e.BinaryExpr? && Level(e.op) > n then 1 else 0
  {
    match e
    case NumberExpr(v) =>
      NumberValueOfNat(v.Floor as nat);
    case VariableExpr(_) =>
    case StringExpr(_) =>
    case BinaryExpr(l, op, r) =>
      if Level(op) > n {
        UnparseNumbers(e, 4);
        NumbersAppend([Token(LParen, "(")], Unparse(e, 4));
        NumbersAppend([Token(LParen, "(")] + Unparse(e, 4), [Token(RParen, ")")]);
      } else {
        UnparseNumbers(l, Level(op));
        UnparseNumbers(r, Level(op) - 1);
        NumbersAppend(Unparse(l, Level(op)), [OpToken(op)]);
        NumbersAppend(Unparse(l, Level(op)) + [OpToken(op)], Unparse(r, Level(op) - 1));
      }
  }

  lemma NumbersAppend(a: seq<Token>, b: seq<Token>)
    requires NumbersWellFormed(a) && (forall k :: 0 <= k < |b| ==> b[k].kind != Number || Lexing.IsNumberText(b[k].text))
    ensures NumbersWellFormed(a + b)
  {
    assert forall k :: |a| <= k < |a + b| ==> (a + b)[k] == b[k - |a|];
  }

  /** Precedence and associativity, stated as a round trip: an expression
      statement's tokens, printed with only the parentheses precedence and
      left associativity demand, parse back to the same tree. */
  lemma ParseUnparse(e: Expr)
    requires Printable(e)
    ensures NumbersWellFormed(Unparse(e, 4) + [EndToken])
    ensures ParseExpression(Unparse(e, 4) + [EndToken], 0) == Success((e, |Unparse(e, 4)|))
  {
    var u := Unparse(e, 4);
    var toks := u + [EndToken];
    UnparseNumbers(e, 4);
    NumbersAppend(u, [EndToken]);
    AtConcat(u, [EndToken]);
    assert toks[|u|] == EndToken;
    ParsesAt(e, 4, toks, 0, |u|);
  }

  // ---------------------------------------------------------------------
  // The simple statements
  // ---------------------------------------------------------------------

  /** A list laid out as three parts. */
  lemma AtSplit(toks: seq<Token>, pos: nat, a: seq<Token>, m: seq<Token>, b: seq<Token>)
    requires At(toks, pos, a + m + b)
    ensures At(toks, pos, a) && At(toks, pos + |a|, m) && At(toks, pos + |a| + |m|, b)
  {
    AtAppend(toks, pos, a + m, b);
    AtAppend(toks, pos, a, m);
  }

  lemma AtOne(toks: seq<Token>, pos: nat, x: Token)
    requires At(toks, pos, [x])
    ensures pos < |toks| && toks[pos] == x
  {
  }

  lemma AtTwo(toks: seq<Token>, pos: nat, x: Token, y: Token)
    requires At(toks, pos, [x, y])
    ensures pos + 1 < |toks| && toks[pos] == x && toks[pos + 1] == y
  {
    assert [x, y][1..] == [y];
  }

  lemma AtThreeTokens(toks: seq<Token>, pos: nat, x: Token, y: Token, z: Token)
    requires At(toks, pos, [x, y, z])
    ensures pos + 2 < |toks| && toks[pos] == x && toks[pos + 1] == y && toks[pos + 2] == z
  {
    assert [x, y, z][1..] == [y, z];
    AtTwo(toks, pos + 1, y, z);
  }

  /** A printed expression followed by a token no level takes parses back
      as an expression that ends at that token. */
  lemma ExpressionBefore(e: Expr, toks: seq<Token>, p: nat, q: nat)
    requires Printable(e) && NumbersWellFormed(toks)
    requires At(toks, p, Unparse(e, 4)) && q == p + |Unparse(e, 4)|
    requires q < |toks| && OpLevel(toks[q].kind) == 0
    ensures ParseExpression(toks, p) == Success((e, q))
  {
    assert Current(toks, q) == toks[q];
    ParsesAt(e, 4, toks, p, q);
  }

  /** `type name = expression ;` declares name, the identifier's text, with
      the type keyword's kind and the expression, and ends after the `;`. */
  lemma DeclarationParses(typeToken: Token, name: string, e: Expr, toks: seq<Token>, pos: nat)
    requires IsTypeKind(typeToken.kind) && Printable(e) && NumbersWellFormed(toks)
    requires At(toks, pos, [typeToken, Token(Identifier, name), Token(Equal, "=")] + Unparse(e, 4)
                           + [Token(Semicolon, ";")])
    ensures ParseDeclaration(toks, pos) == Success((DeclStmt(typeToken.kind, name, e), pos + |Unparse(e, 4)| + 4))
  {
    var u := Unparse(e, 4);
    var q := pos + 3 + |u|;
    assert q < |toks| && toks[pos] == typeToken && toks[pos + 1] == Token(Identifier, name)
        && toks[pos + 2].kind == Equal && toks[q].kind == Semicolon && At(toks, pos + 3, u) by {
      AtSplit(toks, pos, [typeToken, Token(Identifier, name), Token(Equal, "=")], u, [Token(Semicolon, ";")]);
      AtThreeTokens(toks, pos, typeToken, Token(Identifier, name), Token(Equal, "="));
      AtOne(toks, q, Token(Semicolon, ";"));
    }
    DeclarationSteps(typeToken, name, e, toks, pos, q, pos + |Unparse(e, 4)| + 4);
  }

  lemma DeclarationSteps(typeToken: Token, name: string, e: Expr, toks: seq<Token>, pos: nat, q: nat, r: nat)
    requires Printable(e) && NumbersWellFormed(toks) && IsTypeKind(typeToken.kind)
    requires q == pos + 3 + |Unparse(e, 4)| && q < |toks| && r == q + 1
    requires toks[pos] == typeToken && toks[pos + 1] == Token(Identifier, name)
    requires toks[pos + 2].kind == Equal && At(toks, pos + 3, Unparse(e, 4)) && toks[q].kind == Semicolon
    ensures ParseDeclaration(toks, pos) == Success((DeclStmt(typeToken.kind, name, e), r))
  {
    ExpressionBefore(e, toks, pos + 3, q);
    assert Current(toks, pos) == typeToken && Current(toks, pos + 1) == Token(Identifier, name);
    assert Consume(toks, pos + 1, Identifier) == Success(pos + 2);
    assert Consume(toks, pos + 2, Equal) == Success(pos + 3);
    assert Consume(toks, q, Semicolon) == Success(q + 1);
  }

  /** A declaration must start with a type keyword. */
  lemma DeclarationNeedsType(toks: seq<Token>, pos: nat)
    requires pos <= |toks| && NumbersWellFormed(toks) && !IsTypeKind(Current(toks, pos).kind)
    ensures ParseDeclaration(toks, pos) == Failure("Expected type declaration")
  {
  }

  /** `smile ( expression ) ;` prints the expression and ends after the `;`. */
  lemma PrintParses(e: Expr, toks: seq<Token>, pos: nat)
    requires Printable(e) && NumbersWellFormed(toks)
    requires At(toks, pos, [Token(Print, "smile"), Token(LParen, "(")] + Unparse(e, 4)
                           + [Token(RParen, ")"), Token(Semicolon, ";")])
    ensures ParsePrintStmt(toks, pos) == Success((PrintStmt(e), pos + |Unparse(e, 4)| + 4))
  {
    var u := Unparse(e, 4);
    var q := pos + 2 + |u|;
    assert q + 1 < |toks| && toks[pos].kind == Print && toks[pos + 1].kind == LParen
        && toks[q].kind == RParen && toks[q + 1].kind == Semicolon && At(toks, pos + 2, u) by {
      AtSplit(toks, pos, [Token(Print, "smile"), Token(LParen, "(")], u, [Token(RParen, ")"), Token(Semicolon, ";")]);
      AtTwo(toks, pos, Token(Print, "smile"), Token(LParen, "("));
      AtTwo(toks, q, Token(RParen, ")"), Token(Semicolon, ";"));
    }
    PrintSteps(e, toks, pos, q);
    assert Current(toks, q + 1) == toks[q + 1];
    assert q + 2 == pos + |Unparse(e, 4)| + 4;
  }

  /** `smile ( expression )`, then whatever follows the `)`. */
  lemma PrintSteps(e: Expr, toks: seq<Token>, pos: nat, q: nat)
    requires Printable(e) && NumbersWellFormed(toks)
    requires q == pos + 2 + |Unparse(e, 4)| && q < |toks|
    requires toks[pos].kind == Print && toks[pos + 1].kind == LParen
    requires At(toks, pos + 2, Unparse(e, 4)) && toks[q].kind == RParen
    ensures ParsePrintStmt(toks, pos) ==
      if Current(toks, q + 1).kind == Semicolon then Success((PrintStmt(e), q + 2))
      else Failure(UnexpectedToken(Current(toks, q + 1)))
  {
    ExpressionBefore(e, toks, pos + 2, q);
    assert Consume(toks, pos, Print) == Success(pos + 1);
    assert Consume(toks, pos + 1, LParen) == Success(pos + 2);
    assert Consume(toks, q, RParen) == Success(q + 1);
  }

  /** A print statement whose `)` is not followed by `;` fails on the token
      found there. */
  lemma PrintNeedsSemicolon(e: Expr, toks: seq<Token>, pos: nat)
    requires Printable(e) && NumbersWellFormed(toks)
    requires At(toks, pos, [Token(Print, "smile"), Token(LParen, "(")] + Unparse(e, 4) + [Token(RParen, ")")])
    requires Current(toks, pos + |Unparse(e, 4)| + 3).kind != Semicolon
    ensures ParsePrintStmt(toks, pos) == Failure(UnexpectedToken(Current(toks, pos + |Unparse(e, 4)| + 3)))
  {
    var u := Unparse(e, 4);
    var q := pos + 2 + |u|;
    assert q < |toks| && toks[pos].kind == Print && toks[pos + 1].kind == LParen
        && toks[q].kind == RParen && At(toks, pos + 2, u) by {
      AtSplit(toks, pos, [Token(Print, "smile"), Token(LParen, "(")], u, [Token(RParen, ")")]);
      AtTwo(toks, pos, Token(Print, "smile"), Token(LParen, "("));
      AtOne(toks, q, Token(RParen, ")"));
    }
    PrintSteps(e, toks, pos, q);
    assert q + 1 == pos + |Unparse(e, 4)| + 3;
  }

  /** `name = expression ;` assigns to name, the identifier's text, and ends
      after the `;`. */
  lemma AssignParses(name: string, e: Expr, toks: seq<Token>, pos: nat)
    requires Printable(e) && NumbersWellFormed(toks)
    requires At(toks, pos, [Token(Identifier, name), Token(Equal, "=")] + Unparse(e, 4) + [Token(Semicolon, ";")])
    ensures ParseAssignStmt(toks, pos) == Success((AssignStmt(name, e), pos + |Unparse(e, 4)| + 3))
  {
    var u := Unparse(e, 4);
    var q := pos + 2 + |u|;
    assert q < |toks| && toks[pos] == Token(Identifier, name) && toks[pos + 1].kind == Equal
        && toks[q].kind == Semicolon && At(toks, pos + 2, u) by {
      AtSplit(toks, pos, [Token(Identifier, name), Token(Equal, "=")], u, [Token(Semicolon, ";")]);
      AtTwo(toks, pos, Token(Identifier, name), Token(Equal, "="));
      AtOne(toks, q, Token(Semicolon, ";"));
    }
    AssignSteps(name, e, toks, pos, q, pos + |Unparse(e, 4)| + 3);
  }

  lemma AssignSteps(name: string, e: Expr, toks: seq<Token>, pos: nat, q: nat, r: nat)
    requires Printable(e) && NumbersWellFormed(toks)
    requires q == pos + 2 + |Unparse(e, 4)| && q < |toks| && r == q + 1
    requires toks[pos] == Token(Identifier, name) && toks[pos + 1].kind == Equal
    requires At(toks, pos + 2, Unparse(e, 4)) && toks[q].kind == Semicolon
    ensures ParseAssignStmt(toks, pos) == Success((AssignStmt(name, e), r))
  {
    ExpressionBefore(e, toks, pos + 2, q);
    assert Current(toks, pos) == Token(Identifier, name);
    assert Consume(toks, pos, Identifier) == Success(pos + 1);
    assert Consume(toks, pos + 1, Equal) == Success(pos + 2);
    assert Consume(toks, q, Semicolon) == Success(q + 1);
  }

  /** `while ( expression )` is followed by its body, one statement: the
      loop succeeds exactly when the body parses, and ends where it ends. */
  lemma WhileParses(c: Expr, toks: seq<Token>, pos: nat)
    requires Printable(c) && NumbersWellFormed(toks)
    requires At(toks, pos, [Token(WhileType, "while"), Token(LParen, "(")] + Unparse(c, 4) + [Token(RParen, ")")])
    ensures pos + |Unparse(c, 4)| + 3 <= |toks|
    ensures WhileBody(toks, pos, c, pos + |Unparse(c, 4)| + 3)
  {
    var u := Unparse(c, 4);
    var q := pos + 2 + |u|;
    assert q < |toks| && toks[pos].kind == WhileType && toks[pos + 1].kind == LParen
        && toks[q].kind == RParen && At(toks, pos + 2, u) by {
      AtSplit(toks, pos, [Token(WhileType, "while"), Token(LParen, "(")], u, [Token(RParen, ")")]);
      AtTwo(toks, pos, Token(WhileType, "while"), Token(LParen, "("));
      AtOne(toks, q, Token(RParen, ")"));
    }
    WhileSteps(c, toks, pos, q, pos + |Unparse(c, 4)| + 3);
  }

  /** The while statement at pos has condition c and, as its body, the
      statement at q, and fails exactly as that statement does. */
  predicate WhileBody(toks: seq<Token>, pos: nat, c: Expr, q: nat)
    requires pos <= |toks| && q <= |toks| && NumbersWellFormed(toks)
  {
    && (ParseWhileStmt(toks, pos).Success? <==> ParseStatement(toks, q).Success?)
    && (ParseStatement(toks, q).Success? ==>
          ParseWhileStmt(toks, pos).value ==
            (WhileStmt(c, ParseStatement(toks, q).value.0), ParseStatement(toks, q).value.1))
    && (ParseStatement(toks, q).Failure? ==> ParseWhileStmt(toks, pos).error == ParseStatement(toks, q).error)
  }

  lemma WhileSteps(c: Expr, toks: seq<Token>, pos: nat, q: nat, r: nat)
    requires Printable(c) && NumbersWellFormed(toks)
    requires q == pos + 2 + |Unparse(c, 4)| && q < |toks| && r == q + 1
    requires toks[pos].kind == WhileType && toks[pos + 1].kind == LParen
    requires At(toks, pos + 2, Unparse(c, 4)) && toks[q].kind == RParen
    ensures WhileBody(toks, pos, c, r)
  {
    ExpressionBefore(c, toks, pos + 2, q);
    assert Consume(toks, pos, WhileType) == Success(pos + 1);
    assert Consume(toks, pos + 1, LParen) == Success(pos + 2);
    assert Consume(toks, q, RParen) == Success(q + 1);
  }

  /** `ana ( expression )` is followed by its branches: the if statement's
      condition is the expression between the parentheses. */
  lemma IfParses(c: Expr, toks: seq<Token>, pos: nat)
    requires Printable(c) && NumbersWellFormed(toks)
    requires At(toks, pos, [Token(IfType, "ana"), Token(LParen, "(")] + Unparse(c, 4) + [Token(RParen, ")")])
    ensures pos + |Unparse(c, 4)| + 3 <= |toks|
    ensures ParseIfStmt(toks, pos) == IfBranches(toks, c, pos + |Unparse(c, 4)| + 3)
  {
    var u := Unparse(c, 4);
    var q := pos + 2 + |u|;
    assert q < |toks| && toks[pos].kind == IfType && toks[pos + 1].kind == LParen
        && toks[q].kind == RParen && At(toks, pos + 2, u) by {
      AtSplit(toks, pos, [Token(IfType, "ana"), Token(LParen, "(")], u, [Token(RParen, ")")]);
      AtTwo(toks, pos, Token(IfType, "ana"), Token(LParen, "("));
      AtOne(toks, q, Token(RParen, ")"));
    }
    IfSteps(c, toks, pos, q, pos + |Unparse(c, 4)| + 3);
  }

  lemma IfSteps(c: Expr, toks: seq<Token>, pos: nat, q: nat, r: nat)
    requires Printable(c) && NumbersWellFormed(toks)
    requires q == pos + 2 + |Unparse(c, 4)| && q < |toks| && r == q + 1
    requires toks[pos].kind == IfType && toks[pos + 1].kind == LParen
    requires At(toks, pos + 2, Unparse(c, 4)) && toks[q].kind == RParen
    ensures ParseIfStmt(toks, pos) == IfBranches(toks, c, r)
  {
    ExpressionBefore(c, toks, pos + 2, q);
    assert Consume(toks, pos, IfType) == Success(pos + 1);
    assert Consume(toks, pos + 1, LParen) == Success(pos + 2);
    assert Consume(toks, q, RParen) == Success(q + 1);
  }

  /** A statement that parses starts neither at `}` nor at End. */
  lemma StatementStart(toks: seq<Token>, pos: nat)
    requires pos <= |toks| && NumbersWellFormed(toks) && ParseStatement(toks, pos).Success?
    ensures Current(toks, pos).kind != RBrace && Current(toks, pos).kind != End
  {
  }

  /** ss are statements parsed one after another, the k-th from ps[k] to
      ps[k + 1]. */
  predicate Sequenced(toks: seq<Token>, ps: seq<nat>, ss: seq<Stmt>)
    requires NumbersWellFormed(toks)
  {
    && |ps| == |ss| + 1 && ps[|ss|] <= |toks|
    && forall k :: 0 <= k < |ss| ==>
         ps[k] <= |toks| && ParseStatement(toks, ps[k]) == Success((ss[k], ps[k + 1]))
  }

  /** Statements parsed one after another up to a `}` are exactly the
      statements the block loop adds, and the loop ends just after the `}`. */
  lemma {:induction false} BlockCollects(toks: seq<Token>, ps: seq<nat>, ss: seq<Stmt>, stmts: seq<Stmt>)
    requires NumbersWellFormed(toks) && Sequenced(toks, ps, ss)
    requires Current(toks, ps[|ss|]).kind == RBrace
    ensures BlockLoop(toks, ps[0], stmts) == Success((BlockStmt(stmts + ss), ps[|ss|] + 1))
    decreases |ss|
  {
    if ss == [] {
      assert stmts + ss == stmts;
      assert Consume(toks, ps[0], RBrace) == Success(ps[0] + 1);
    } else {
      assert ParseStatement(toks, ps[0]) == Success((ss[0], ps[1]));
      StatementStart(toks, ps[0]);
      assert Sequenced(toks, ps[1..], ss[1..]) by {
        forall k | 0 <= k < |ss[1..]|
          ensures ps[1..][k] <= |toks| && ParseStatement(toks, ps[1..][k]) == Success((ss[1..][k], ps[1..][k + 1]))
        {
          assert ps[1..][k] == ps[k + 1] && ps[1..][k + 1] == ps[k + 2] && ss[1..][k] == ss[k + 1];
        }
      }
      BlockCollects(toks, ps[1..], ss[1..], stmts + [ss[0]]);
      assert stmts + [ss[0]] + ss[1..] == stmts + ss;
    }
  }

  /** `{`, statements parsed one after another, then `}`: a block of
      exactly those statements, ending just after the `}`. */
  lemma BlockParses(toks: seq<Token>, pos: nat, ps: seq<nat>, ss: seq<Stmt>)
    requires pos < |toks| && NumbersWellFormed(toks) && toks[pos].kind == LBrace
    requires Sequenced(toks, ps, ss) && ps[0] == pos + 1 && Current(toks, ps[|ss|]).kind == RBrace
    ensures ParseBlockStmt(toks, pos) == Success((BlockStmt(ss), ps[|ss|] + 1))
  {
    assert Consume(toks, pos, LBrace) == Success(pos + 1);
    BlockCollects(toks, ps, ss, []);
    assert [] + ss == ss;
  }

  /** `a - b - c` groups to the left. */
  lemma MinusGroupsLeft()
    ensures ParseExpression([Token(Identifier, "a"), Token(Minus, "-"), Token(Identifier, "b"),
                             Token(Minus, "-"), Token(Identifier, "c"), EndToken], 0)
         == Success((BinaryExpr(BinaryExpr(VariableExpr("a"), "-", VariableExpr("b")), "-", VariableExpr("c")), 5))
  {
    var e := BinaryExpr(BinaryExpr(VariableExpr("a"), "-", VariableExpr("b")), "-", VariableExpr("c"));
    ParseUnparse(e);
    assert Unparse(e, 4) == [Token(Identifier, "a"), Token(Minus, "-"), Token(Identifier, "b"),
                             Token(Minus, "-"), Token(Identifier, "c")];
    assert Unparse(e, 4) + [EndToken] == [Token(Identifier, "a"), Token(Minus, "-"), Token(Identifier, "b"),
                             Token(Minus, "-"), Token(Identifier, "c"), EndToken];
  }

  /** `1 + 2 * 3` multiplies first. */
  lemma TimesBindsTighter()
    ensures ParseExpression([Token(Number, "1"), Token(Plus, "+"), Token(Number, "2"),
                             Token(Star, "*"), Token(Number, "3"), EndToken], 0)
         == Success((BinaryExpr(NumberExpr(1.0), "+", BinaryExpr(NumberExpr(2.0), "*", NumberExpr(3.0))), 5))
  {
    var e := BinaryExpr(NumberExpr(1.0), "+", BinaryExpr(NumberExpr(2.0), "*", NumberExpr(3.0)));
    ParseUnparse(e);
    assert Unparse(e, 4) == [Token(Number, "1"), Token(Plus, "+"), Token(Number, "2"),
                             Token(Star, "*"), Token(Number, "3")];
    assert Unparse(e, 4) + [EndToken] == [Token(Number, "1"), Token(Plus, "+"), Token(Number, "2"),
                             Token(Star, "*"), Token(Number, "3"), EndToken];
  }

  /** `x == 1 + 2` compares last: equality binds loosest. */
  lemma EqualityBindsLoosest()
    ensures ParseExpression([Token(Identifier, "x"), Token(DoubleEqual, "=="), Token(Number, "1"),
                             Token(Plus, "+"), Token(Number, "2"), EndToken], 0)
         == Success((BinaryExpr(VariableExpr("x"), "==", BinaryExpr(NumberExpr(1.0), "+", NumberExpr(2.0))), 5))
  {
    var e := BinaryExpr(VariableExpr("x"), "==", BinaryExpr(NumberExpr(1.0), "+", NumberExpr(2.0)));
    ParseUnparse(e);
    assert Unparse(e, 4) == [Token(Identifier, "x"), Token(DoubleEqual, "=="), Token(Number, "1"),
                             Token(Plus, "+"), Token(Number, "2")];
    assert Unparse(e, 4) + [EndToken] == [Token(Identifier, "x"), Token(DoubleEqual, "=="), Token(Number, "1"),
                             Token(Plus, "+"), Token(Number, "2"), EndToken];
  }

  // ---------------------------------------------------------------------
  // Factors
  // ---------------------------------------------------------------------

  /** A failing first factor fails every level with the factor's message. */
  lemma {:induction false} FirstFactorFails(n: nat, toks: seq<Token>, pos: nat)
    requires n <= 4 && pos <= |toks| && NumbersWellFormed(toks)
    requires ParseFactor(toks, pos).Failure?
    ensures ParseLevel(n, toks, pos) == ParseFactor(toks, pos)
  {
    if n > 0 {
      FirstFactorFails(n - 1, toks, pos);
    }
  }

  /** A factor starts only with a number, a name, `(` or a string literal;
      anything else, a leading minus sign among them, fails the whole
      expression with the factor's message naming the token and its kind. */
  lemma FactorRejects(toks: seq<Token>, pos: nat)
    requires pos <= |toks| && NumbersWellFormed(toks)
    requires var k := Current(toks, pos).kind; k != Number && k != Identifier && k != LParen && k != StringLiteral
    ensures ParseExpression(toks, pos) == Failure(UnexpectedInFactor(Current(toks, pos)))
  {
    FirstFactorFails(4, toks, pos);
  }

  lemma LeadingMinusFails()
    ensures ParseExpression([Token(Minus, "-"), Token(Number, "1"), EndToken], 0)
         == Failure("Unexpected token in factor: '-' (type = 3)")
  {
    FactorRejects([Token(Minus, "-"), Token(Number, "1"), EndToken], 0);
    assert DigitChar(3) == '3';
  }

  // ---------------------------------------------------------------------
  // Statements
  // ---------------------------------------------------------------------

  /** `ana` takes an else branch exactly when `elsa` follows the
      then-statement, and the branches are the statements parsed there. */
  lemma IfTakesElse(toks: seq<Token>, cond: Expr, pos: nat)
    requires pos <= |toks| && NumbersWellFormed(toks)
    ensures var r := IfBranches(toks, cond, pos);
      r.Success? ==>
        var t := ParseStatement(toks, pos);
        && t.Success? && r.value.0.IfStmt? && r.value.0.condition == cond
        && r.value.0.thenBranch == t.value.0
        && (r.value.0.elseBranch.Some? <==> Current(toks, t.value.1).kind == ElseType)
        && (r.value.0.elseBranch.Some? ==>
              ParseStatement(toks, t.value.1 + 1) == Success((r.value.0.elseBranch.value, r.value.1)))
  {
  }

  /** A block's statements run up to `}`, which is its last token. */
  lemma {:induction false} BlockEndsAtBrace(toks: seq<Token>, pos: nat, stmts: seq<Stmt>)
    requires pos <= |toks| && NumbersWellFormed(toks)
    ensures var r := BlockLoop(toks, pos, stmts);
      r.Success? ==> r.value.0.BlockStmt? && stmts <= r.value.0.statements
                     && toks[r.value.1 - 1].kind == RBrace
    decreases |toks| - pos
  {
    var t := Current(toks, pos);
    if t.kind != RBrace && t.kind != End {
      var s := ParseStatement(toks, pos);
      if s.Success? {
        BlockEndsAtBrace(toks, s.value.1, stmts + [s.value.0]);
      }
    }
  }

  /** A block with no `}` ahead fails, at the latest when End comes. */
  lemma {:induction false} BlockNeedsBrace(toks: seq<Token>, pos: nat, stmts: seq<Stmt>)
    requires pos <= |toks| && NumbersWellFormed(toks)
    requires forall k :: pos <= k < |toks| ==> toks[k].kind != RBrace
    ensures BlockLoop(toks, pos, stmts).Failure?
    decreases |toks| - pos
  {
    var t := Current(toks, pos);
    if t.kind != RBrace && t.kind != End {
      var s := ParseStatement(toks, pos);
      if s.Success? {
        BlockNeedsBrace(toks, s.value.1, stmts + [s.value.0]);
      }
    }
  }

  /** Reaching End inside a block fails in the closing `consume`. */
  lemma BlockAtEnd(toks: seq<Token>, pos: nat, stmts: seq<Stmt>)
    requires pos <= |toks| && NumbersWellFormed(toks) && Current(toks, pos).kind == End
    ensures BlockLoop(toks, pos, stmts) == Failure(UnexpectedToken(Current(toks, pos)))
  {
  }

  /** `parseIfStmt` builds an if statement. */
  lemma IfShape(toks: seq<Token>, pos: nat)
    requires pos <= |toks| && NumbersWellFormed(toks)
    ensures ParseIfStmt(toks, pos).Success? ==> ParseIfStmt(toks, pos).value.0.IfStmt?
  {
    var c1 := Consume(toks, pos, IfType);
    if c1.Success? {
      var c2 := Consume(toks, c1.value, LParen);
      if c2.Success? {
        var e := ParseExpression(toks, c2.value);
        if e.Success? {
          var c3 := Consume(toks, e.value.1, RParen);
          if c3.Success? {
            IfTakesElse(toks, e.value.0, c3.value);
          }
        }
      }
    }
  }

  /** `parseBlockStmt` builds a block. */
  lemma BlockShape(toks: seq<Token>, pos: nat)
    requires pos <= |toks| && NumbersWellFormed(toks)
    ensures ParseBlockStmt(toks, pos).Success? ==> ParseBlockStmt(toks, pos).value.0.BlockStmt?
  {
    if Consume(toks, pos, LBrace).Success? {
      BlockEndsAtBrace(toks, pos + 1, []);
    }
  }

  /** parseStatement's dispatch on the current token. */
  lemma StatementDispatch(toks: seq<Token>, pos: nat)
    requires pos <= |toks| && NumbersWellFormed(toks)
    ensures var r := ParseStatement(toks, pos);
      var k := Current(toks, pos).kind;
      && (r.Success? && r.value.0.PrintStmt? <==> k == Print && r.Success?)
      && (r.Success? && r.value.0.IfStmt? <==> k == IfType && r.Success?)
      && (r.Success? && r.value.0.WhileStmt? <==> k == WhileType && r.Success?)
      && (r.Success? && r.value.0.BlockStmt? <==> k == LBrace && r.Success?)
      && (r.Success? && r.value.0.DeclStmt? <==> IsTypeKind(k) && r.Success?)
      && (r.Success? && r.value.0.AssignStmt? <==> k == Identifier && r.Success?)
      && (k == Identifier && !(pos + 1 < |toks| && toks[pos + 1].kind == Equal) ==>
            r == Failure(UnexpectedInStatement(Current(toks, pos))))
  {
    IfShape(toks, pos);
    BlockShape(toks, pos);
  }

  /** parseProgram's lookahead past an identifier stays inside the list. */
  lemma LookaheadInBounds(toks: seq<Token>, pos: nat)
    requires pos <= |toks| && ParserInput(toks) && Current(toks, pos).kind != End
    ensures pos + 1 < |toks|
  {
  }

  /** parseProgram's own dispatch: a type keyword declares, identifier-`=`
      assigns, `smile`, `ana` and `while` start their statements, and every
      other token, `{` among them, fails with "Unexpected token: ". */
  lemma TopDispatch(toks: seq<Token>, pos: nat)
    requires pos <= |toks| && ParserInput(toks) && Current(toks, pos).kind != End
    ensures var r := TopStatement(toks, pos);
      var k := Current(toks, pos).kind;
      && (r.Success? ==> !r.value.0.BlockStmt?)
      && (k == LBrace ==> r == Failure(UnexpectedToken(Current(toks, pos))))
      && (IsTypeKind(k) ==> r == ParseDeclaration(toks, pos))
      && (k == Identifier && toks[pos + 1].kind == Equal ==> r == ParseAssignStmt(toks, pos))
      && (k == Print ==> r == ParsePrintStmt(toks, pos))
      && (k == IfType ==> r == ParseIfStmt(toks, pos))
      && (k == WhileType ==> r == ParseWhileStmt(toks, pos))
      && ((!IsTypeKind(k) && !(k == Identifier && toks[pos + 1].kind == Equal)
           && k != Print && k != IfType && k != WhileType) ==>
            r == Failure(UnexpectedToken(Current(toks, pos))))
  {
    IfShape(toks, pos);
  }

  /** A parsed program is the statements of parseProgram's loop in order,
      none of them a block. */
  lemma {:induction false} ProgramHasNoBlocks(toks: seq<Token>, pos: nat, stmts: seq<Stmt>)
    requires pos <= |toks| && ParserInput(toks)
    requires forall k :: 0 <= k < |stmts| ==> !stmts[k].BlockStmt?
    ensures var r := ProgramLoop(toks, pos, stmts);
      r.Success? ==> stmts <= r.value && forall k :: 0 <= k < |r.value| ==> !r.value[k].BlockStmt?
    decreases |toks| - pos
  {
    if Current(toks, pos).kind != End {
      var s := TopStatement(toks, pos);
      if s.Success? {
        TopDispatch(toks, pos);
        ProgramHasNoBlocks(toks, s.value.1, stmts + [s.value.0]);
      }
    }
  }

  /** Statements parsed one after another up to End, none of them a block,
      are exactly the statements parseProgram's loop adds. */
  lemma {:induction false} ProgramCollects(toks: seq<Token>, ps: seq<nat>, ss: seq<Stmt>, stmts: seq<Stmt>)
    requires ParserInput(toks) && Sequenced(toks, ps, ss)
    requires forall k :: 0 <= k < |ss| ==> !ss[k].BlockStmt?
    requires Current(toks, ps[|ss|]).kind == End
    ensures ProgramLoop(toks, ps[0], stmts) == Success(stmts + ss)
    decreases |ss|
  {
    if ss == [] {
      assert stmts + ss == stmts;
    } else {
      assert ParseStatement(toks, ps[0]) == Success((ss[0], ps[1]));
      StatementStart(toks, ps[0]);
      StatementDispatch(toks, ps[0]);
      LookaheadInBounds(toks, ps[0]);
      assert TopStatement(toks, ps[0]) == ParseStatement(toks, ps[0]);
      assert Sequenced(toks, ps[1..], ss[1..]) by {
        forall k | 0 <= k < |ss[1..]|
          ensures ps[1..][k] <= |toks| && ParseStatement(toks, ps[1..][k]) == Success((ss[1..][k], ps[1..][k + 1]))
        {
          assert ps[1..][k] == ps[k + 1] && ps[1..][k + 1] == ps[k + 2] && ss[1..][k] == ss[k + 1];
        }
      }
      ProgramCollects(toks, ps[1..], ss[1..], stmts + [ss[0]]);
      assert stmts + [ss[0]] + ss[1..] == stmts + ss;
    }
  }

  /** A token list that holds statements parsed one after another, none a
      block, up to End parses to exactly those statements. */
  lemma ProgramParses(toks: seq<Token>, ps: seq<nat>, ss: seq<Stmt>)
    requires ParserInput(toks) && Sequenced(toks, ps, ss) && ps[0] == 0
    requires forall k :: 0 <= k < |ss| ==> !ss[k].BlockStmt?
    requires Current(toks, ps[|ss|]).kind == End
    ensures ParseProgram(toks) == Success(ss)
  {
    ProgramCollects(toks, ps, ss, []);
    assert [] + ss == ss;
  }
}
