/** What `evaluate`, `execute` and `interpret` promise: the kind rules of
    the operators (against a static kind checker that never looks at a
    value), the declaration coercions, the frame of each statement, and
    how a run composes. */
module InterpretingProps {
  import opened Wrappers
  import opened Tokens
  import opened Ast
  import opened Interpreting

  // ---------------------------------------------------------------------
  // Kinds: an independent account of which evaluations succeed
  // ---------------------------------------------------------------------

  /** Which alternative of the variant a value holds. */
  datatype Kind = IntKind | FloatKind | StrKind

  function KindOf(v: Value): Kind {
    match v
    case Int(_) => IntKind
    case Float(_) => FloatKind
    case Str(_) => StrKind
  }

  /** The kinds of the variables, forgetting their values. */
  function Kinds(env: Env): map<string, Kind> {
    map x | x in env :: KindOf(env[x])
  }

  /** The kind a binary operator yields from operands of the given kinds,
      or None when it throws. */
  function OpKind(op: string, a: Kind, b: Kind): Option<Kind> {
    if a == StrKind || b == StrKind then
      if op == "+" && a == StrKind && b == StrKind then Some(StrKind) else None
    else if op == "+" || op == "-" || op == "*" || op == "/" then Some(FloatKind)
    else if op == "==" || op == "!=" then Some(IntKind)
    else None
  }

  /** The kind of an expression, computed from the kinds of the variables
      alone, or None when its evaluation throws. */
  function KindCheck(e: Expr, kinds: map<string, Kind>): Option<Kind> {
    match e
    case NumberExpr(_) => Some(FloatKind)
    case VariableExpr(name) => if name in kinds then Some(kinds[name]) else None
    case StringExpr(_) => Some(StrKind)
    case BinaryExpr(l, op, r) =>
      match (KindCheck(l, kinds), KindCheck(r, kinds))
      case (Some(a), Some(b)) => OpKind(op, a, b)
      case _ => None
  }

  /** An operator throws exactly when the kind rules reject its operands,
      and otherwise yields a value of the kind they predict. */
  lemma ApplyKinds(op: string, a: Value, b: Value)
    ensures Apply(op, a, b).Success? <==> OpKind(op, KindOf(a), KindOf(b)).Some?
    ensures Apply(op, a, b).Success? ==>
      KindOf(Apply(op, a, b).value) == OpKind(op, KindOf(a), KindOf(b)).value
  {
  }

  /** Evaluation succeeds exactly when the kind checker accepts the
      expression, and then yields a value of the kind it predicts: whether
      an expression throws depends only on the kinds of its variables. */
  lemma {:induction false} EvaluateKinds(e: Expr, env: Env)
    ensures Evaluate(e, env).Success? <==> KindCheck(e, Kinds(env)).Some?
    ensures Evaluate(e, env).Success? ==>
      KindOf(Evaluate(e, env).value) == KindCheck(e, Kinds(env)).value
    decreases e
  {
    match e
    case NumberExpr(_) =>
    case VariableExpr(name) =>
    case StringExpr(_) =>
    case BinaryExpr(l, op, r) =>
      EvaluateKinds(l, env);
      EvaluateKinds(r, env);
      if Evaluate(l, env).Success? && Evaluate(r, env).Success? {
        ApplyKinds(op, Evaluate(l, env).value, Evaluate(r, env).value);
      }
  }

  // ---------------------------------------------------------------------
  // The operators one by one
  // ---------------------------------------------------------------------

  /** A literal evaluates to itself: a number literal always to the
      Float kind; a name to its value, or "Undefined variable: name". */
  lemma Leaves(env: Env, v: real, s: string, name: string)
    ensures Evaluate(NumberExpr(v), env) == Success(Float(v))
    ensures Evaluate(StringExpr(s), env) == Success(Str(s))
    ensures name in env ==> Evaluate(VariableExpr(name), env) == Success(env[name])
    ensures name !in env ==>
      Evaluate(VariableExpr(name), env) == Failure("Undefined variable: " + name)
  {
  }

  /** `+` concatenates two strings, throws "Value is not a string" when
      exactly one operand is a string, and adds two numbers. */
  lemma PlusDispatch(a: Value, b: Value)
    ensures a.Str? && b.Str? ==> Apply("+", a, b) == Success(Str(a.s + b.s))
    ensures a.Str? != b.Str? ==> Apply("+", a, b) == Failure("Value is not a string")
    ensures IsNumber(a) && IsNumber(b) ==>
      Apply("+", a, b) == Success(Float(ToDouble(a) + ToDouble(b)))
  {
  }

  /** Every other operator with a string operand throws the mixing error. */
  lemma StringsOnlyConcatenate(op: string, a: Value, b: Value)
    requires op != "+" && (a.Str? || b.Str?)
    ensures Apply(op, a, b) == Failure("Cannot mix numbers and strings in arithmetic operations")
  {
  }

  /** On two numbers: the arithmetic operators yield a Float whatever the
      operands' kinds, `==` and `!=` an Int that is 1 exactly when the
      comparison holds, and any other operator, the comparisons and `%`
      among them, throws "Unknown operator: op". */
  lemma NumericOperators(op: string, a: Value, b: Value)
    requires IsNumber(a) && IsNumber(b)
    ensures op == "-" ==> Apply(op, a, b) == Success(Float(ToDouble(a) - ToDouble(b)))
    ensures op == "*" ==> Apply(op, a, b) == Success(Float(ToDouble(a) * ToDouble(b)))
    ensures op == "/" && ToDouble(b) != 0.0 ==>
      Apply(op, a, b) == Success(Float(ToDouble(a) / ToDouble(b)))
    ensures op == "/" ==> Apply(op, a, b).Success? && Apply(op, a, b).value.Float?
    ensures op == "==" ==> Apply(op, a, b) == Success(Int(if ToDouble(a) == ToDouble(b) then 1 else 0))
    ensures op == "!=" ==> Apply(op, a, b) == Success(Int(if ToDouble(a) == ToDouble(b) then 0 else 1))
    ensures op !in ["+", "-", "*", "/", "==", "!="] ==>
      Apply(op, a, b) == Failure("Unknown operator: " + op)
  {
    if op == "*" {
      assert Apply("*", a, b).value.x == ToDouble(a) * ToDouble(b);
    }
  }

  /** `!=` is the negation of `==` on any operands that both accept. */
  lemma NotEqualNegates(a: Value, b: Value)
    requires Apply("==", a, b).Success?
    ensures Apply("!=", a, b).Success?
    ensures Apply("!=", a, b).value.i == 1 - Apply("==", a, b).value.i
    ensures Apply("==", a, b).value.i in {0, 1}
  {
  }

  /** The left operand is evaluated first: its error is the one reported
      even when the right operand would throw as well. */
  lemma LeftThrowsFirst(l: Expr, op: string, r: Expr, env: Env)
    requires Evaluate(l, env).Failure?
    ensures Evaluate(BinaryExpr(l, op, r), env) == Failure(Evaluate(l, env).error)
  {
  }

  /** The names an expression reads. */
  function Reads(e: Expr): set<string> {
    match e
    case NumberExpr(_) => {}
    case VariableExpr(name) => {name}
    case StringExpr(_) => {}
    case BinaryExpr(l, _, r) => Reads(l) + Reads(r)
  }

  /** Two maps that agree on the names an expression reads give it the
      same result. */
  lemma {:induction false} EvaluateReads(e: Expr, env: Env, other: Env)
    requires forall x :: x in Reads(e) ==> (x in env <==> x in other)
    requires forall x :: x in Reads(e) && x in env ==> env[x] == other[x]
    ensures Evaluate(e, env) == Evaluate(e, other)
    decreases e
  {
    if e.BinaryExpr? {
      EvaluateReads(e.left, env, other);
      EvaluateReads(e.right, env, other);
    }
  }

  // ---------------------------------------------------------------------
  // Declarations
  // ---------------------------------------------------------------------

  /** The kind a declaration of the given type stores. */
  function DeclaredKind(varType: TokenKind): Option<Kind> {
    if varType == IntType then Some(IntKind)
    else if varType == FloatType then Some(FloatKind)
    else if varType == StringType then Some(StrKind)
    else None
  }

  /** The coercion table: an `int` or `float` target takes either number,
      a `string` target only a string, and the stored value always has the
      declared kind; every other pair throws its own message. */
  lemma DeclareTable(varType: TokenKind, v: Value)
    ensures Declare(varType, v).Success? <==>
      (varType in {IntType, FloatType} && IsNumber(v)) || (varType == StringType && v.Str?)
    ensures Declare(varType, v).Success? ==>
      Some(KindOf(Declare(varType, v).value)) == DeclaredKind(varType)
    ensures Declare(varType, v).Failure? ==>
      Declare(varType, v).error == (
        if varType == IntType then "Type mismatch assigning to int variable"
        else if varType == FloatType then "Type mismatch assigning to float variable"
        else if varType == StringType then "Type mismatch assigning to string variable"
        else "Unknown variable type")
  {
  }

  /** A whole real is its own truncation. */
  lemma TruncateWhole(n: int)
    ensures Truncate(n as real) == n
  {
  }

  /** What the coercion keeps: an `int` target truncates the number toward
      zero (an Int unchanged), a `float` target widens it exactly, and a
      `string` target keeps the string. */
  lemma DeclareValue(varType: TokenKind, v: Value)
    requires Declare(varType, v).Success?
    ensures varType == IntType ==> Declare(varType, v).value == Int(Truncate(ToDouble(v)))
    ensures varType == FloatType ==> Declare(varType, v).value == Float(ToDouble(v))
    ensures varType == StringType ==> Declare(varType, v).value == v
  {
    if v.Int? {
      TruncateWhole(v.i);
    }
  }

  /** Declaring again with the same type changes nothing. */
  lemma DeclareIdempotent(varType: TokenKind, v: Value)
    requires Declare(varType, v).Success?
    ensures Declare(varType, Declare(varType, v).value) == Declare(varType, v)
  {
  }

  // ---------------------------------------------------------------------
  // Statements
  // ---------------------------------------------------------------------

  /** `smile`: prints the value and leaves the variables alone. */
  lemma PrintEffect(e: Expr, st: State)
    ensures Exec(PrintStmt(e), st).Success? <==> Evaluate(e, st.variables).Success?
    ensures Exec(PrintStmt(e), st).Success? ==>
      && Exec(PrintStmt(e), st).value.variables == st.variables
      && Exec(PrintStmt(e), st).value.output == st.output + [Evaluate(e, st.variables).value]
  {
  }

  /** Assignment stores the value under the name whatever that name held
      before, defined or not and of whatever kind; nothing else changes. */
  lemma AssignEffect(name: string, e: Expr, st: State)
    ensures Exec(AssignStmt(name, e), st).Success? <==> Evaluate(e, st.variables).Success?
    ensures Exec(AssignStmt(name, e), st).Success? ==>
      && Exec(AssignStmt(name, e), st).value.variables[name] == Evaluate(e, st.variables).value
      && Exec(AssignStmt(name, e), st).value.output == st.output
      && forall x :: x != name ==>
        (x in Exec(AssignStmt(name, e), st).value.variables <==> x in st.variables)
  {
  }

  /** A declaration stores the coerced value; nothing else changes. */
  lemma DeclEffect(varType: TokenKind, name: string, e: Expr, st: State)
    ensures Exec(DeclStmt(varType, name, e), st).Success? <==>
      Evaluate(e, st.variables).Success? && Declare(varType, Evaluate(e, st.variables).value).Success?
    ensures Exec(DeclStmt(varType, name, e), st).Success? ==>
      && Exec(DeclStmt(varType, name, e), st).value.variables ==
         st.variables[name := Declare(varType, Evaluate(e, st.variables).value).value]
      && Exec(DeclStmt(varType, name, e), st).value.output == st.output
  {
  }

  /** `ana` on a string condition throws. */
  lemma IfStringCondition(c: Expr, thenBranch: Stmt, elseBranch: Option<Stmt>, st: State)
    requires Evaluate(c, st.variables).Success? && Evaluate(c, st.variables).value.Str?
    ensures Exec(IfStmt(c, thenBranch, elseBranch), st) == Failure("Condition must be numeric")
  {
  }

  /** `ana` on a non-zero number runs exactly its then-branch. */
  lemma IfTrue(c: Expr, thenBranch: Stmt, elseBranch: Option<Stmt>, st: State)
    requires Evaluate(c, st.variables).Success? && IsNumber(Evaluate(c, st.variables).value)
    requires ToDouble(Evaluate(c, st.variables).value) != 0.0
    ensures Exec(IfStmt(c, thenBranch, elseBranch), st) == Exec(thenBranch, st)
  {
  }

  /** `ana` on zero runs exactly its `elsa` branch. */
  lemma IfFalseElse(c: Expr, thenBranch: Stmt, other: Stmt, st: State)
    requires Evaluate(c, st.variables).Success? && IsNumber(Evaluate(c, st.variables).value)
    requires ToDouble(Evaluate(c, st.variables).value) == 0.0
    ensures Exec(IfStmt(c, thenBranch, Some(other)), st) == Exec(other, st)
  {
  }

  /** `ana` on zero without `elsa` does nothing. */
  lemma IfFalseNoElse(c: Expr, thenBranch: Stmt, st: State)
    requires Evaluate(c, st.variables).Success? && IsNumber(Evaluate(c, st.variables).value)
    requires ToDouble(Evaluate(c, st.variables).value) == 0.0
    ensures Exec(IfStmt(c, thenBranch, None), st).Success?
    ensures Exec(IfStmt(c, thenBranch, None), st).value == st
  {
  }

  /** The evaluator has no case for loops and blocks. */
  lemma LoopsAndBlocksThrow(c: Expr, body: Stmt, stmts: seq<Stmt>, st: State)
    ensures Exec(WhileStmt(c, body), st) == Failure("Unknown statement type in execute")
    ensures Exec(BlockStmt(stmts), st) == Failure("Unknown statement type in execute")
  {
  }

  /** The names a statement may write. */
  function Targets(s: Stmt): set<string> {
    match s
    case PrintStmt(_) => {}
    case AssignStmt(name, _) => {name}
    case DeclStmt(_, name, _) => {name}
    case IfStmt(_, thenBranch, elseBranch) =>
      Targets(thenBranch) + (match elseBranch case Some(other) => Targets(other) case None => {})
    case WhileStmt(_, _) => {}
    case BlockStmt(_) => {}
  }

  /** The frame of `execute`: no name is ever removed, only the names the
      statement writes can be added or change, and the output only grows,
      by at most the one line a `smile` prints. */
  lemma {:induction false} ExecFrame(s: Stmt, st: State)
    requires Exec(s, st).Success?
    ensures var next := Exec(s, st).value;
      && st.variables.Keys <= next.variables.Keys <= st.variables.Keys + Targets(s)
      && (forall x :: x in st.variables && x !in Targets(s) ==> next.variables[x] == st.variables[x])
      && |st.output| <= |next.output| <= |st.output| + 1
      && next.output[..|st.output|] == st.output
    decreases s
  {
    match s
    case IfStmt(c, thenBranch, elseBranch) =>
      var b := Truth(Evaluate(c, st.variables).value).value;
      if b {
        ExecFrame(thenBranch, st);
      } else if elseBranch.Some? {
        ExecFrame(elseBranch.value, st);
      }
    case _ =>
  }

  // ---------------------------------------------------------------------
  // Runs
  // ---------------------------------------------------------------------

  /** Running two programs one after the other is running them joined,
      unless the first throws, which ends the run there. */
  lemma {:induction false} RunAppend(p: seq<Stmt>, q: seq<Stmt>, st: State)
    ensures Run(p + q, st) ==
      if Run(p, st).error.Some? then Run(p, st) else Run(q, Run(p, st).state)
    decreases |p|
  {
    if p == [] {
      assert p + q == q;
    } else {
      assert (p + q)[0] == p[0] && (p + q)[1..] == p[1..] + q;
      if Exec(p[0], st).Success? {
        RunAppend(p[1..], q, Exec(p[0], st).value);
      }
    }
  }

  /** Over a whole run the variable map only gains names and the output
      only grows, whether or not the run throws. */
  lemma {:induction false} RunGrows(p: seq<Stmt>, st: State)
    ensures st.variables.Keys <= Run(p, st).state.variables.Keys
    ensures |st.output| <= |Run(p, st).state.output|
    ensures Run(p, st).state.output[..|st.output|] == st.output
    decreases |p|
  {
    if p != [] && Exec(p[0], st).Success? {
      var next := Exec(p[0], st).value;
      ExecFrame(p[0], st);
      RunGrows(p[1..], next);
      assert Run(p, st).state.output[..|next.output|] == next.output;
      assert next.output[..|st.output|] == st.output;
    }
  }

  /** A run that throws stops at a statement that throws from the state
      the statements before it reached. */
  lemma {:induction false} RunThrowsAt(p: seq<Stmt>, st: State)
    requires Run(p, st).error.Some?
    ensures exists i :: (0 <= i < |p| &&
      Run(p[..i], st) == Halt(Run(p, st).state, None) &&
      Exec(p[i], Run(p, st).state) == Failure(Run(p, st).error.value))
    decreases |p|
  {
    match Exec(p[0], st)
    case Failure(e) =>
      assert p[..0] == [];
    case Success(next) =>
      RunThrowsAt(p[1..], next);
      var i :| 0 <= i < |p[1..]| &&
        Run(p[1..][..i], next) == Halt(Run(p, st).state, None) &&
        Exec(p[1..][i], Run(p, st).state) == Failure(Run(p, st).error.value);
      assert p[..i + 1] == [p[0]] + p[1..][..i];
      assert p[..i + 1][0] == p[0] && p[..i + 1][1..] == p[1..][..i];
  }
}
