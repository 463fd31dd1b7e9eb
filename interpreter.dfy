/** The tree-walking evaluator of interpreter.cpp: runtime values, the
    pure `evaluate`, and the statement semantics that `execute` and
    `interpret` carry out on the interpreter's variable map. */
module Interpreting {
  import opened Wrappers
  import opened Tokens
  import opened Ast

  /** `std::variant<int, double, std::string>`. A double is an exact real
      here: rounding, infinities and NaN are not modelled. */
  datatype Value = Int(i: int) | Float(x: real) | Str(s: string)

  /** The interpreter's `variables` map. */
  type Env = map<string, Value>

  /** What running has done so far: the variables, and every value
      printed, in order. */
  datatype State = State(variables: Env, output: seq<Value>)

  /** How a run ends: the state reached and, if a statement threw, the
      message it threw (the statements before it keep their effects). */
  datatype Halt = Halt(state: State, error: Option<string>)

  const NotAString := "Value is not a string"
  const MixedOperands := "Cannot mix numbers and strings in arithmetic operations"
  const IntMismatch := "Type mismatch assigning to int variable"
  const FloatMismatch := "Type mismatch assigning to float variable"
  const StringMismatch := "Type mismatch assigning to string variable"
  const UnknownVariableType := "Unknown variable type"
  const ConditionNotNumeric := "Condition must be numeric"
  const UnknownStatement := "Unknown statement type in execute"

  function UndefinedVariable(name: string): string {
    "Undefined variable: " + name
  }

  function UnknownOperator(op: string): string {
    "Unknown operator: " + op
  }

  // ---------------------------------------------------------------------
  // Expressions
  // ---------------------------------------------------------------------

  /** The `is_number` helper. */
  predicate IsNumber(v: Value) {
    v.Int? || v.Float?
  }

  /** The `to_double` helper on a number. */
  function ToDouble(v: Value): real
    requires IsNumber(v)
  {
    if v.Int? then v.i as real else v.x
  }

  /** The double division; a zero divisor, which gives an infinity or NaN
      in the source, gives 0.0 here. */
  function Quotient(a: real, b: real): real {
    if b == 0.0 then 0.0 else a / b
  }

  /** A binary operator applied to its two evaluated operands. A `+` with a
      string operand concatenates, through the `to_string` helper, which
      throws unless its operand is a string. */
  function Apply(op: string, left: Value, right: Value): Result<Value> {
    if op == "+" && (!IsNumber(left) || !IsNumber(right)) then
      if left.Str? && right.Str? then Success(Str(left.s + right.s))
      else Failure(NotAString)
    else if !IsNumber(left) || !IsNumber(right) then
      Failure(MixedOperands)
    else
      var a, b := ToDouble(left), ToDouble(right);
      if op == "+" then Success(Float(a + b))
      else if op == "-" then Success(Float(a - b))
      else if op == "*" then Success(Float(a * b))
      else if op == "/" then Success(Float(Quotient(a, b)))
      else if op == "==" then Success(Int(if a == b then 1 else 0))
      else if op == "!=" then Success(Int(if a != b then 1 else 0))
      else Failure(UnknownOperator(op))
  }

  /** `evaluate`: reads the variables and either yields a value or throws;
      the left operand is evaluated before the right one. */
  function Evaluate(e: Expr, env: Env): Result<Value> {
    match e
    case NumberExpr(v) => Success(Float(v))
    case VariableExpr(name) =>
      if name in env then Success(env[name]) else Failure(UndefinedVariable(name))
    case StringExpr(s) => Success(Str(s))
    case BinaryExpr(l, op, r) =>
      var a :- Evaluate(l, env);
      var b :- Evaluate(r, env);
      Apply(op, a, b)
  }

  // ---------------------------------------------------------------------
  // Statements
  // ---------------------------------------------------------------------

  /** `static_cast<int>` of a double: truncation toward zero (a double
      out of the range of `int` is not modelled). */
  function Truncate(x: real): (n: int)
    ensures x >= 0.0 ==> 0.0 <= n as real <= x < n as real + 1.0
    ensures x < 0.0 ==> n as real - 1.0 < x <= n as real <= 0.0
  {
    if x >= 0.0 then x.Floor else -((-x).Floor)
  }

  /** The value a declaration of the given type stores. */
  function Declare(varType: TokenKind, v: Value): Result<Value> {
    if varType == IntType then
      match v
      case Int(_) => Success(v)
      case Float(x) => Success(Int(Truncate(x)))
      case Str(_) => Failure(IntMismatch)
    else if varType == FloatType then
      match v
      case Int(n) => Success(Float(n as real))
      case Float(_) => Success(v)
      case Str(_) => Failure(FloatMismatch)
    else if varType == StringType then
      if v.Str? then Success(v) else Failure(StringMismatch)
    else
      Failure(UnknownVariableType)
  }

  /** The truth of an `ana` condition: a number is true when non-zero. */
  function Truth(v: Value): Result<bool> {
    match v
    case Int(n) => Success(n != 0)
    case Float(x) => Success(x != 0.0)
    case Str(_) => Failure(ConditionNotNumeric)
  }

  /** `execute`: a statement either throws and changes nothing, or has
      its whole effect. */
  function Exec(s: Stmt, st: State): Result<State> {
    match s
    case PrintStmt(e) =>
      var v :- Evaluate(e, st.variables);
      Success(st.(output := st.output + [v]))
    case AssignStmt(name, e) =>
      var v :- Evaluate(e, st.variables);
      Success(st.(variables := st.variables[name := v]))
    case DeclStmt(varType, name, e) =>
      var v :- Evaluate(e, st.variables);
      var stored :- Declare(varType, v);
      Success(st.(variables := st.variables[name := stored]))
    case IfStmt(c, thenBranch, elseBranch) =>
      var v :- Evaluate(c, st.variables);
      var b :- Truth(v);
      if b then Exec(thenBranch, st)
      else (
        match elseBranch
        case Some(other) => Exec(other, st)
        case None => Success(st))
    case WhileStmt(_, _) => Failure(UnknownStatement)
    case BlockStmt(_) => Failure(UnknownStatement)
  }

  /** `interpret`: the statements in order, up to the first that throws. */
  function Run(program: seq<Stmt>, st: State): Halt {
    if program == [] then Halt(st, None)
    else
      match Exec(program[0], st)
      case Failure(e) => Halt(st, Some(e))
      case Success(next) => Run(program[1..], next)
  }

  // ---------------------------------------------------------------------
  // The interpreter object
  // ---------------------------------------------------------------------

  class Interpreter {
    var variables: Env
    /** The values sent to standard output, one per line. */
    var output: seq<Value>

    constructor ()
      ensures variables == map[] && output == []
    {
      variables := map[];
      output := [];
    }

    function Snapshot(): State
      reads this
    {
      State(variables, output)
    }

    /** `execute`, writing the variable map in place. */
    method Execute(s: Stmt) returns (r: Result<()>)
      modifies this
      ensures match Exec(s, old(Snapshot()))
        case Success(next) => r == Success(()) && Snapshot() == next
        case Failure(e) => r == Failure(e) && Snapshot() == old(Snapshot())
      decreases s
    {
      match s
      case PrintStmt(e) =>
        var v := Evaluate(e, variables);
        if v.Failure? {
          return Failure(v.error);
        }
        output := output + [v.value];
        r := Success(());
      case AssignStmt(name, e) =>
        var v := Evaluate(e, variables);
        if v.Failure? {
          return Failure(v.error);
        }
        variables := variables[name := v.value];
        r := Success(());
      case DeclStmt(varType, name, e) =>
        var v := Evaluate(e, variables);
        if v.Failure? {
          return Failure(v.error);
        }
        var stored := Declare(varType, v.value);
        if stored.Failure? {
          return Failure(stored.error);
        }
        variables := variables[name := stored.value];
        r := Success(());
      case IfStmt(c, thenBranch, elseBranch) =>
        var v := Evaluate(c, variables);
        if v.Failure? {
          return Failure(v.error);
        }
        var b := Truth(v.value);
        if b.Failure? {
          return Failure(b.error);
        }
        if b.value {
          r := Execute(thenBranch);
        } else if elseBranch.Some? {
          r := Execute(elseBranch.value);
        } else {
          r := Success(());
        }
      case WhileStmt(_, _) =>
        r := Failure(UnknownStatement);
      case BlockStmt(_) =>
        r := Failure(UnknownStatement);
    }

    /** `interpret`: executes the program's statements in order; a throw
        ends the run and reaches the caller. */
    method Interpret(program: seq<Stmt>) returns (r: Result<()>)
      modifies this
      ensures Snapshot() == Run(program, old(Snapshot())).state
      ensures r.Failure? <==> Run(program, old(Snapshot())).error.Some?
      ensures r.Failure? ==> r.error == Run(program, old(Snapshot())).error.value
    {
      var i := 0;
      while i < |program|
        invariant i <= |program|
        invariant Run(program, old(Snapshot())) == Run(program[i..], Snapshot())
        decreases |program| - i
      {
        assert program[i..][0] == program[i] && program[i..][1..] == program[i + 1..];
        r := Execute(program[i]);
        if r.Failure? {
          return;
        }
        i := i + 1;
      }
      r := Success(());
    }
  }
}
