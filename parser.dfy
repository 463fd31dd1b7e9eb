/** The recursive-descent parser of parser.cpp: a functional specification
    of every parsing function over (tokens, position), and the `Parser` class
    whose methods move a cursor exactly as the C++ object does. */
module Parsing {
  import opened Wrappers
  import opened Tokens
  import opened Ast
  import Lexing

  // ---------------------------------------------------------------------
  // Messages
  // ---------------------------------------------------------------------

  function UnexpectedToken(t: Token): string {
    "Unexpected token: " + t.text
  }

  function UnexpectedInFactor(t: Token): string {
    "Unexpected token in factor: '" + t.text + "' (type = " + NatToString(Ordinal(t.kind)) + ")"
  }

  function UnexpectedInStatement(t: Token): string {
    "Unexpected token in statement: " + t.text
  }

  const ExpectedTypeDeclaration: string := "Expected type declaration"

  // ---------------------------------------------------------------------
  // Input, cursor, number conversion
  // ---------------------------------------------------------------------

  /** Every Number token has the text the lexer gives it, which is what the
      number conversion relies on. */
  predicate NumbersWellFormed(toks: seq<Token>) {
    forall k :: 0 <= k < |toks| && toks[k].kind == Number ==> Lexing.IsNumberText(toks[k].text)
  }

  /** What `parseProgram` relies on: its unguarded lookahead past an
      identifier stays in bounds because the list ends with End. */
  predicate ParserInput(toks: seq<Token>) {
    |toks| > 0 && toks[|toks| - 1].kind == End && NumbersWellFormed(toks)
  }

  /** `currentToken()`: the token at pos, or End past the end. */
  function Current(toks: seq<Token>, pos: nat): Token
  {
    if pos < |toks| then toks[pos] else EndToken
  }

  /** `consume(expected)`: the position after the current token. */
  function Consume(toks: seq<Token>, pos: nat, expected: TokenKind): Result<nat> {
    if Current(toks, pos).kind == expected then Success(pos + 1)
    else Failure(UnexpectedToken(Current(toks, pos)))
  }

  function DigitValue(c: char): (d: nat)
    requires Lexing.IsDigit(c)
    ensures d < 10
  {
    c as int - '0' as int
  }

  /** The value of a string of decimal digits. */
  function DigitsValue(w: string): nat
    requires forall k :: 0 <= k < |w| ==> Lexing.IsDigit(w[k])
  {
    if w == [] then 0
    else DigitsValue(w[..|w| - 1]) * 10 + DigitValue(w[|w| - 1])
  }

  /** The value of the digits after a decimal point. */
  function FractionValue(w: string): real
    requires forall k :: 0 <= k < |w| ==> Lexing.IsDigit(w[k])
  {
    if w == [] then 0.0
    else (DigitValue(w[0]) as real + FractionValue(w[1..])) / 10.0
  }

  /** `std::stoi`: the value of the leading digits. */
  function Stoi(w: string): nat
    requires Lexing.IsNumberText(w)
  {
    DigitsValue(w[..Lexing.Span(w, 0, Lexing.IsDigit)])
  }

  /** `std::stod` on digits and points: the leading digits, then the digits
      between the first point and the next one, as an exact decimal. */
  function Stod(w: string): real
    requires Lexing.IsNumberText(w)
  {
    var intEnd := Lexing.Span(w, 0, Lexing.IsDigit);
    var whole := DigitsValue(w[..intEnd]) as real;
    if intEnd == |w| then whole
    else whole + FractionValue(w[intEnd + 1..Lexing.Span(w, intEnd + 1, Lexing.IsDigit)])
  }

  /** The largest value of a C++ `int`. */
  const IntMax: nat := 0x7fff_ffff

  /** The message of the `std::out_of_range` that `std::stoi` throws (as
      libstdc++ words it) when the digits exceed an `int`. */
  const StoiOutOfRange: string := "stoi"

  /** The conversion `parseFactor` applies to a Number token's text:
      `std::stod` when it holds a point, otherwise `std::stoi` into an
      `int`, which fails beyond that type's range. */
  function NumberValue(w: string): Result<real>
    requires Lexing.IsNumberText(w)
  {
    if '.' in w then Success(Stod(w))
    else if Stoi(w) > IntMax then Failure(StoiOutOfRange)
    else Success(Stoi(w) as real)
  }

  // ---------------------------------------------------------------------
  // Expressions
  // ---------------------------------------------------------------------

  /** The precedence level whose loop takes an operator token: 4 equality,
      3 comparison, 2 addition, 1 term; 0 for any other token. */
  function OpLevel(k: TokenKind): nat {
    if k == DoubleEqual || k == BangEqual then 4
    else if k == Less || k == LessEqual || k == Greater || k == GreaterEqual then 3
    else if k == Plus || k == Minus then 2
    else if k == Star || k == Slash || k == Percent then 1
    else 0
  }

  /** `parseExpression`: the equality level. */
  function ParseExpression(toks: seq<Token>, pos: nat): (r: Result<(Expr, nat)>)
    requires pos <= |toks| && NumbersWellFormed(toks)
    ensures r.Success? ==> pos < r.value.1 <= |toks|
    decreases |toks| - pos, 6
  {
    ParseLevel(4, toks, pos)
  }

  /** `parseEquality` (n = 4), `parseComparison` (3), `parseAddition` (2),
      `parseTerm` (1) and `parseFactor` (0): an operand one level down, then
      the level's loop. */
  function ParseLevel(n: nat, toks: seq<Token>, pos: nat): (r: Result<(Expr, nat)>)
    requires n <= 4 && pos <= |toks| && NumbersWellFormed(toks)
    ensures r.Success? ==> pos < r.value.1 <= |toks|
    decreases |toks| - pos, n + 1
  {
    if n == 0 then ParseFactor(toks, pos)
    else
      match ParseLevel(n - 1, toks, pos)
      case Failure(e) => Failure(e)
      case Success((first, p)) => LevelLoop(n, toks, first, p)
  }

  /** The `while` loop of level n: while the current token is one of the
      level's operators, consume it, parse the next operand and rebind
      `left` to the binary node. */
  function LevelLoop(n: nat, toks: seq<Token>, left: Expr, pos: nat): (r: Result<(Expr, nat)>)
    requires 1 <= n <= 4 && pos <= |toks| && NumbersWellFormed(toks)
    ensures r.Success? ==> pos <= r.value.1 <= |toks|
    decreases |toks| - pos, 0
  {
    var t := Current(toks, pos);
    if OpLevel(t.kind) == n then
      // consuming the operator just inspected
      match ParseLevel(n - 1, toks, pos + 1)
      case Failure(e) => Failure(e)
      case Success((right, p)) => LevelLoop(n, toks, BinaryExpr(left, t.text, right), p)
    else
      Success((left, pos))
  }

  function ParseFactor(toks: seq<Token>, pos: nat): (r: Result<(Expr, nat)>)
    requires pos <= |toks| && NumbersWellFormed(toks)
    ensures r.Success? ==> pos < r.value.1 <= |toks|
    decreases |toks| - pos, 0
  {
    var t := Current(toks, pos);
    if t.kind == Number then
      match NumberValue(t.text)
      case Failure(e) => Failure(e)
      case Success(v) => Success((NumberExpr(v), pos + 1))
    else if t.kind == Identifier then
      Success((VariableExpr(t.text), pos + 1))
    else if t.kind == LParen then
      var inner :- ParseExpression(toks, pos + 1);
      var q :- Consume(toks, inner.1, RParen);
      Success((inner.0, q))
    else if t.kind == StringLiteral then
      Success((StringExpr(t.text), pos + 1))
    else
      Failure(UnexpectedInFactor(t))
  }

  // ---------------------------------------------------------------------
  // Statements
  // ---------------------------------------------------------------------

  predicate IsTypeKind(k: TokenKind) {
    k == IntType || k == FloatType || k == StringType
  }

  function ParseStatement(toks: seq<Token>, pos: nat): (r: Result<(Stmt, nat)>)
    requires pos <= |toks| && NumbersWellFormed(toks)
    ensures r.Success? ==> pos < r.value.1 <= |toks|
    decreases |toks| - pos, 2
  {
    var t := Current(toks, pos);
    if t.kind == Print then ParsePrintStmt(toks, pos)
    else if t.kind == IfType then ParseIfStmt(toks, pos)
    else if t.kind == WhileType then ParseWhileStmt(toks, pos)
    else if t.kind == LBrace then ParseBlockStmt(toks, pos)
    else if IsTypeKind(t.kind) then ParseDeclaration(toks, pos)
    else if t.kind == Identifier && pos + 1 < |toks| && toks[pos + 1].kind == Equal then
      ParseAssignStmt(toks, pos)
    else Failure(UnexpectedInStatement(t))
  }

  function ParseDeclaration(toks: seq<Token>, pos: nat): (r: Result<(Stmt, nat)>)
    requires pos <= |toks| && NumbersWellFormed(toks)
    ensures r.Success? ==> pos < r.value.1 <= |toks|
  {
    var typeToken := Current(toks, pos);
    if !IsTypeKind(typeToken.kind) then Failure(ExpectedTypeDeclaration)
    else
      var p1 := pos + 1;
      var name := Current(toks, p1).text;
      var p2 :- Consume(toks, p1, Identifier);
      var p3 :- Consume(toks, p2, Equal);
      var e :- ParseExpression(toks, p3);
      var p4 :- Consume(toks, e.1, Semicolon);
      Success((DeclStmt(typeToken.kind, name, e.0), p4))
  }

  function ParsePrintStmt(toks: seq<Token>, pos: nat): (r: Result<(Stmt, nat)>)
    requires pos <= |toks| && NumbersWellFormed(toks)
    ensures r.Success? ==> pos < r.value.1 <= |toks|
  {
    var p1 :- Consume(toks, pos, Print);
    var p2 :- Consume(toks, p1, LParen);
    var e :- ParseExpression(toks, p2);
    var p3 :- Consume(toks, e.1, RParen);
    var p4 :- Consume(toks, p3, Semicolon);
    Success((PrintStmt(e.0), p4))
  }

  function ParseAssignStmt(toks: seq<Token>, pos: nat): (r: Result<(Stmt, nat)>)
    requires pos <= |toks| && NumbersWellFormed(toks)
    ensures r.Success? ==> pos < r.value.1 <= |toks|
  {
    var name := Current(toks, pos).text;
    var p1 :- Consume(toks, pos, Identifier);
    var p2 :- Consume(toks, p1, Equal);
    var e :- ParseExpression(toks, p2);
    var p3 :- Consume(toks, e.1, Semicolon);
    Success((AssignStmt(name, e.0), p3))
  }

  function ParseIfStmt(toks: seq<Token>, pos: nat): (r: Result<(Stmt, nat)>)
    requires pos <= |toks| && NumbersWellFormed(toks)
    ensures r.Success? ==> pos < r.value.1 <= |toks|
    decreases |toks| - pos, 1
  {
    match Consume(toks, pos, IfType)
    case Failure(e) => Failure(e)
    case Success(p1) =>
    match Consume(toks, p1, LParen)
    case Failure(e) => Failure(e)
    case Success(p2) =>
    match ParseExpression(toks, p2)
    case Failure(e) => Failure(e)
    case Success((cond, p)) =>
    match Consume(toks, p, RParen)
    case Failure(e) => Failure(e)
    case Success(p3) =>
    IfBranches(toks, cond, p3)
  }

  /** The rest of `parseIfStmt` after `)`: the then-statement, and an
      else-statement exactly when `elsa` follows it. */
  function IfBranches(toks: seq<Token>, cond: Expr, pos: nat): (r: Result<(Stmt, nat)>)
    requires pos <= |toks| && NumbersWellFormed(toks)
    ensures r.Success? ==> pos < r.value.1 <= |toks|
    decreases |toks| - pos, 3
  {
    var thenPart :- ParseStatement(toks, pos);
    if Current(toks, thenPart.1).kind == ElseType then
      var elsePart :- ParseStatement(toks, thenPart.1 + 1);
      Success((IfStmt(cond, thenPart.0, Some(elsePart.0)), elsePart.1))
    else
      Success((IfStmt(cond, thenPart.0, None), thenPart.1))
  }

  function ParseWhileStmt(toks: seq<Token>, pos: nat): (r: Result<(Stmt, nat)>)
    requires pos <= |toks| && NumbersWellFormed(toks)
    ensures r.Success? ==> pos < r.value.1 <= |toks|
    decreases |toks| - pos, 1
  {
    var p1 :- Consume(toks, pos, WhileType);
    var p2 :- Consume(toks, p1, LParen);
    var cond :- ParseExpression(toks, p2);
    var p3 :- Consume(toks, cond.1, RParen);
    var body :- ParseStatement(toks, p3);
    Success((WhileStmt(cond.0, body.0), body.1))
  }

  function ParseBlockStmt(toks: seq<Token>, pos: nat): (r: Result<(Stmt, nat)>)
    requires pos <= |toks| && NumbersWellFormed(toks)
    ensures r.Success? ==> pos < r.value.1 <= |toks|
    decreases |toks| - pos, 1
  {
    var p :- Consume(toks, pos, LBrace);
    BlockLoop(toks, p, [])
  }

  /** The loop of `parseBlockStmt`: statements up to `}`, which is consumed;
      reaching End first fails in that final `consume`. */
  function BlockLoop(toks: seq<Token>, pos: nat, stmts: seq<Stmt>): (r: Result<(Stmt, nat)>)
    requires pos <= |toks| && NumbersWellFormed(toks)
    ensures r.Success? ==> pos < r.value.1 <= |toks|
    decreases |toks| - pos, 3
  {
    var t := Current(toks, pos);
    if t.kind != RBrace && t.kind != End then
      var s :- ParseStatement(toks, pos);
      BlockLoop(toks, s.1, stmts + [s.0])
    else
      var q :- Consume(toks, pos, RBrace);
      Success((BlockStmt(stmts), q))
  }

  // ---------------------------------------------------------------------
  // Programs
  // ---------------------------------------------------------------------

  /** The statement `parseProgram` parses at pos (not End): its own dispatch,
      which has no block case and an unguarded lookahead. */
  function TopStatement(toks: seq<Token>, pos: nat): (r: Result<(Stmt, nat)>)
    requires pos <= |toks| && ParserInput(toks) && Current(toks, pos).kind != End
    ensures r.Success? ==> pos < r.value.1 <= |toks|
  {
    var t := Current(toks, pos);
    if IsTypeKind(t.kind) then ParseDeclaration(toks, pos)
    else if t.kind == Identifier && toks[pos + 1].kind == Equal then ParseAssignStmt(toks, pos)
    else if t.kind == Print then ParsePrintStmt(toks, pos)
    else if t.kind == IfType then ParseIfStmt(toks, pos)
    else if t.kind == WhileType then ParseWhileStmt(toks, pos)
    else Failure(UnexpectedToken(t))
  }

  function ProgramLoop(toks: seq<Token>, pos: nat, stmts: seq<Stmt>): Result<seq<Stmt>>
    requires pos <= |toks| && ParserInput(toks)
    decreases |toks| - pos
  {
    if Current(toks, pos).kind == End then Success(stmts)
    else
      var s :- TopStatement(toks, pos);
      ProgramLoop(toks, s.1, stmts + [s.0])
  }

  /** `parseProgram` on a fresh parser. */
  function ParseProgram(toks: seq<Token>): Result<seq<Stmt>>
    requires ParserInput(toks)
  {
    ProgramLoop(toks, 0, [])
  }
}
