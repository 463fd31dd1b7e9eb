/** The three stages in the order main.cpp runs them: `tokenize`, then
    `parseProgram` on the tokens, then `interpret` on a fresh interpreter;
    and what the stages guarantee one another. */
module Pipeline {
  import opened Wrappers
  import opened Tokens
  import opened Ast
  import Lexing
  import LexingProps
  import opened Parsing
  import opened Interpreting

  /** Tokens without `while` or `{`: the lexer never produces either. */
  predicate NoLoopTokens(toks: seq<Token>) {
    forall k :: 0 <= k < |toks| ==> toks[k].kind != WhileType && toks[k].kind != LBrace
  }

  /** The token list `tokenize` returns is one `parseProgram` can read: it
      ends with End, its numbers are digits and points, and it holds no
      `while` or `{`. */
  lemma LexerFeedsParser(source: string)
    requires Lexing.Tokenize(source).Success?
    ensures ParserInput(Lexing.Tokenize(source).value)
    ensures NoLoopTokens(Lexing.Tokenize(source).value)
  {
    var ts := Lexing.Tokenize(source).value;
    LexingProps.TokenizeShape(source);
    assert forall k :: 0 <= k < |ts| - 1 ==> Lexing.Lexed(ts[k]);
  }

  /** A statement `execute` has a case for all the way down, whose
      declarations name a variable type. */
  predicate Executable(s: Stmt) {
    match s
    case PrintStmt(_) => true
    case AssignStmt(_, _) => true
    case DeclStmt(varType, _, _) => IsTypeKind(varType)
    case IfStmt(_, thenBranch, elseBranch) =>
      Executable(thenBranch) && (match elseBranch case Some(other) => Executable(other) case None => true)
    case WhileStmt(_, _) => false
    case BlockStmt(_) => false
  }

  /** Without `while` and `{` in the tokens, `parseStatement` builds only
      executable statements. */
  lemma {:induction false} StatementExecutable(toks: seq<Token>, pos: nat)
    requires pos <= |toks| && NumbersWellFormed(toks) && NoLoopTokens(toks)
    ensures ParseStatement(toks, pos).Success? ==> Executable(ParseStatement(toks, pos).value.0)
    decreases |toks| - pos, 2
  {
    if Current(toks, pos).kind == IfType {
      IfExecutable(toks, pos);
    }
  }

  lemma {:induction false} IfExecutable(toks: seq<Token>, pos: nat)
    requires pos <= |toks| && NumbersWellFormed(toks) && NoLoopTokens(toks)
    ensures ParseIfStmt(toks, pos).Success? ==> Executable(ParseIfStmt(toks, pos).value.0)
    decreases |toks| - pos, 1
  {
    if ParseIfStmt(toks, pos).Success? {
      var p1 := Consume(toks, pos, IfType).value;
      var p2 := Consume(toks, p1, LParen).value;
      var (cond, p) := ParseExpression(toks, p2).value;
      var p3 := Consume(toks, p, RParen).value;
      assert ParseIfStmt(toks, pos) == IfBranches(toks, cond, p3);
      BranchesExecutable(toks, cond, p3);
    }
  }

  lemma {:induction false} BranchesExecutable(toks: seq<Token>, cond: Expr, pos: nat)
    requires pos <= |toks| && NumbersWellFormed(toks) && NoLoopTokens(toks)
    ensures IfBranches(toks, cond, pos).Success? ==> Executable(IfBranches(toks, cond, pos).value.0)
    decreases |toks| - pos, 3
  {
    StatementExecutable(toks, pos);
    if ParseStatement(toks, pos).Success? {
      var q := ParseStatement(toks, pos).value.1;
      if Current(toks, q).kind == ElseType {
        StatementExecutable(toks, q + 1);
      }
    }
  }

  /** Every statement `parseProgram` returns for such tokens is executable. */
  lemma {:induction false} ProgramExecutable(toks: seq<Token>, pos: nat, stmts: seq<Stmt>)
    requires pos <= |toks| && ParserInput(toks) && NoLoopTokens(toks)
    requires forall k :: 0 <= k < |stmts| ==> Executable(stmts[k])
    ensures ProgramLoop(toks, pos, stmts).Success? ==>
      forall k :: 0 <= k < |ProgramLoop(toks, pos, stmts).value| ==>
        Executable(ProgramLoop(toks, pos, stmts).value[k])
    decreases |toks| - pos
  {
    if Current(toks, pos).kind != End && TopStatement(toks, pos).Success? {
      var (s, q) := TopStatement(toks, pos).value;
      if Current(toks, pos).kind == IfType {
        IfExecutable(toks, pos);
      }
      ProgramExecutable(toks, q, stmts + [s]);
    }
  }

  /** The messages `evaluate` can throw. */
  ghost predicate EvaluateMessage(m: string) {
    || m == NotAString
    || m == MixedOperands
    || (exists name :: m == UndefinedVariable(name))
    || (exists op :: m == UnknownOperator(op))
  }

  lemma {:induction false} EvaluateThrows(e: Expr, env: Env)
    requires Evaluate(e, env).Failure?
    ensures EvaluateMessage(Evaluate(e, env).error)
    decreases e
  {
    match e
    case VariableExpr(name) =>
      assert Evaluate(e, env).error == UndefinedVariable(name);
    case BinaryExpr(l, op, r) =>
      if Evaluate(l, env).Failure? {
        EvaluateThrows(l, env);
      } else if Evaluate(r, env).Failure? {
        EvaluateThrows(r, env);
      } else {
        var a, b := Evaluate(l, env).value, Evaluate(r, env).value;
        if Apply(op, a, b).error == UnknownOperator(op) {
          assert Evaluate(e, env).error == UnknownOperator(op);
        }
      }
  }

  /** None of `evaluate`'s messages is one of `execute`'s own. */
  lemma MessagesDiffer(m: string)
    requires EvaluateMessage(m)
    ensures m != UnknownStatement && m != UnknownVariableType
  {
    assert UnknownStatement[2] == 'k' && UnknownStatement[8] == 's';
    assert UnknownVariableType[2] == 'k' && UnknownVariableType[8] == 'v';
    if exists name :: m == UndefinedVariable(name) {
      var name :| m == UndefinedVariable(name);
      assert m[2] == 'd';
    } else if exists op :: m == UnknownOperator(op) {
      var op :| m == UnknownOperator(op);
      assert m[8] == 'o';
    }
  }

  /** An executable statement never reaches `execute`'s last two throws. */
  lemma {:induction false} ExecutableNeverUnknown(s: Stmt, st: State)
    requires Executable(s) && Exec(s, st).Failure?
    ensures Exec(s, st).error != UnknownStatement
    ensures Exec(s, st).error != UnknownVariableType
    decreases s
  {
    match s
    case PrintStmt(e) =>
      EvaluateThrows(e, st.variables);
      MessagesDiffer(Exec(s, st).error);
    case AssignStmt(_, e) =>
      EvaluateThrows(e, st.variables);
      MessagesDiffer(Exec(s, st).error);
    case DeclStmt(_, _, e) =>
      if Evaluate(e, st.variables).Failure? {
        EvaluateThrows(e, st.variables);
        MessagesDiffer(Exec(s, st).error);
      }
    case IfStmt(c, thenBranch, elseBranch) =>
      if Evaluate(c, st.variables).Failure? {
        EvaluateThrows(c, st.variables);
        MessagesDiffer(Exec(s, st).error);
      } else if Truth(Evaluate(c, st.variables).value).Success? {
        if Truth(Evaluate(c, st.variables).value).value {
          ExecutableNeverUnknown(thenBranch, st);
        } else if elseBranch.Some? {
          ExecutableNeverUnknown(elseBranch.value, st);
        }
      }
  }

  lemma {:induction false} RunNeverUnknown(p: seq<Stmt>, st: State)
    requires forall k :: 0 <= k < |p| ==> Executable(p[k])
    ensures Run(p, st).error != Some(UnknownStatement)
    ensures Run(p, st).error != Some(UnknownVariableType)
    decreases |p|
  {
    if p != [] {
      assert Executable(p[0]);
      if Exec(p[0], st).Failure? {
        ExecutableNeverUnknown(p[0], st);
      } else {
        RunNeverUnknown(p[1..], Exec(p[0], st).value);
      }
    }
  }

  /** How a source text ends: `tokenize` or `parseProgram` threw before
      any statement ran, or `interpret` ran (and perhaps threw). main.cpp
      reports every throw alike, as "Error: " and the message. */
  datatype Outcome = LexFailed(lexError: string) | ParseFailed(parseError: string) | Ran(halt: Halt)

  /** main.cpp's `try` block on a source text. */
  function RunSource(source: string): Outcome {
    match Lexing.Tokenize(source)
    case Failure(e) => LexFailed(e)
    case Success(toks) =>
      LexerFeedsParser(source);
      match ParseProgram(toks)
      case Failure(e) => ParseFailed(e)
      case Success(program) => Ran(Run(program, State(map[], [])))
  }

  /** The while, block and unknown-type throws of `execute` are dead code:
      no source text reaches them, since the lexer never produces `while`
      or `{` and the parser declares only with a type keyword. */
  lemma NoSourceReachesDeadThrows(source: string)
    ensures RunSource(source).Ran? ==> RunSource(source).halt.error != Some(UnknownStatement)
    ensures RunSource(source).Ran? ==> RunSource(source).halt.error != Some(UnknownVariableType)
  {
    if Lexing.Tokenize(source).Success? {
      var toks := Lexing.Tokenize(source).value;
      LexerFeedsParser(source);
      if ParseProgram(toks).Success? {
        ProgramExecutable(toks, 0, []);
        RunNeverUnknown(ParseProgram(toks).value, State(map[], []));
      }
    }
  }
}
