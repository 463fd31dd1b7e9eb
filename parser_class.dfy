/** The `Parser` object of parser.cpp: a token list and a cursor that each
    parsing method advances. Every method is proved to return what the
    functional specification in module Parsing computes from the cursor it
    started at, and to leave the cursor where that specification says. */
module RecursiveDescent {
  import opened Wrappers
  import opened Tokens
  import opened Ast
  import Spec = Parsing

  /** A method's outcome matches the specification's: the same tree with the
      cursor after it, or the same error message. */
  ghost predicate Agrees(r: Result<Expr>, spec: Result<(Expr, nat)>, pos: nat) {
    match spec
    case Success(v) => r == Success(v.0) && pos == v.1
    case Failure(e) => r == Failure(e)
  }

  ghost predicate AgreesStmt(r: Result<Stmt>, spec: Result<(Stmt, nat)>, pos: nat) {
    match spec
    case Success(v) => r == Success(v.0) && pos == v.1
    case Failure(e) => r == Failure(e)
  }

  /** A cursor move agrees with the specification: to the position it gives,
      or nowhere with the message it gives. */
  ghost predicate Moved(r: Result<()>, spec: Result<nat>, before: nat, after: nat) {
    match spec
    case Success(p) => r == Success(()) && after == p
    case Failure(e) => r == Failure(e) && after == before
  }

  class Parser {
    const tokens: seq<Token>
    var pos: nat

    ghost predicate Valid()
      reads this
    {
      pos <= |tokens| && Spec.NumbersWellFormed(tokens)
    }

    constructor (tokens: seq<Token>)
      requires Spec.NumbersWellFormed(tokens)
      ensures Valid() && this.tokens == tokens && pos == 0
    {
      this.tokens := tokens;
      pos := 0;
    }

    function CurrentToken(): Token
      reads this
    {
      Spec.Current(tokens, pos)
    }

    /** Advances past the current token if it has the expected kind;
        otherwise fails and leaves the cursor where it was. */
    method Consume(expected: TokenKind) returns (r: Result<()>)
      requires Valid() && expected != End
      modifies this
      ensures Valid()
      ensures Moved(r, Spec.Consume(tokens, old(pos), expected), old(pos), pos)
    {
      if CurrentToken().kind == expected {
        pos := pos + 1;
        r := Success(());
      } else {
        r := Failure(Spec.UnexpectedToken(CurrentToken()));
      }
    }

    // -------------------------------------------------------------------
    // Expressions
    // -------------------------------------------------------------------

    method ParseExpression() returns (r: Result<Expr>)
      requires Valid()
      modifies this
      ensures Valid() && old(pos) <= pos
      ensures Agrees(r, Spec.ParseExpression(tokens, old(pos)), pos)
      decreases |tokens| - pos, 6
    {
      r := ParseEquality();
    }

    method ParseEquality() returns (r: Result<Expr>)
      requires Valid()
      modifies this
      ensures Valid() && old(pos) <= pos
      ensures Agrees(r, Spec.ParseLevel(4, tokens, old(pos)), pos)
      decreases |tokens| - pos, 5
    {
      var left :- ParseComparison();
      while CurrentToken().kind == DoubleEqual || CurrentToken().kind == BangEqual
        invariant Valid() && old(pos) < pos
        invariant Spec.ParseLevel(4, tokens, old(pos)) == Spec.LevelLoop(4, tokens, left, pos)
        decreases |tokens| - pos
      {
        assert Spec.OpLevel(CurrentToken().kind) == 4;
        var opSymbol := CurrentToken().text;
        var _ := Consume(CurrentToken().kind);
        var right :- ParseComparison();
        left := BinaryExpr(left, opSymbol, right);
      }
      r := Success(left);
    }

    method ParseComparison() returns (r: Result<Expr>)
      requires Valid()
      modifies this
      ensures Valid() && old(pos) <= pos
      ensures Agrees(r, Spec.ParseLevel(3, tokens, old(pos)), pos)
      decreases |tokens| - pos, 4
    {
      var left :- ParseAddition();
      while CurrentToken().kind == Less || CurrentToken().kind == LessEqual
         || CurrentToken().kind == Greater || CurrentToken().kind == GreaterEqual
        invariant Valid() && old(pos) < pos
        invariant Spec.ParseLevel(3, tokens, old(pos)) == Spec.LevelLoop(3, tokens, left, pos)
        decreases |tokens| - pos
      {
        assert Spec.OpLevel(CurrentToken().kind) == 3;
        var opSymbol := CurrentToken().text;
        var _ := Consume(CurrentToken().kind);
        var right :- ParseAddition();
        left := BinaryExpr(left, opSymbol, right);
      }
      r := Success(left);
    }

    method ParseAddition() returns (r: Result<Expr>)
      requires Valid()
      modifies this
      ensures Valid() && old(pos) <= pos
      ensures Agrees(r, Spec.ParseLevel(2, tokens, old(pos)), pos)
      decreases |tokens| - pos, 3
    {
      var left :- ParseTerm();
      while CurrentToken().kind == Plus || CurrentToken().kind == Minus
        invariant Valid() && old(pos) < pos
        invariant Spec.ParseLevel(2, tokens, old(pos)) == Spec.LevelLoop(2, tokens, left, pos)
        decreases |tokens| - pos
      {
        assert Spec.OpLevel(CurrentToken().kind) == 2;
        var opSymbol := CurrentToken().text;
        var _ := Consume(CurrentToken().kind);
        var right :- ParseTerm();
        left := BinaryExpr(left, opSymbol, right);
      }
      r := Success(left);
    }

    method ParseTerm() returns (r: Result<Expr>)
      requires Valid()
      modifies this
      ensures Valid() && old(pos) <= pos
      ensures Agrees(r, Spec.ParseLevel(1, tokens, old(pos)), pos)
      decreases |tokens| - pos, 2
    {
      var left :- ParseFactor();
      while CurrentToken().kind == Star || CurrentToken().kind == Slash || CurrentToken().kind == Percent
        invariant Valid() && old(pos) < pos
        invariant Spec.ParseLevel(1, tokens, old(pos)) == Spec.LevelLoop(1, tokens, left, pos)
        decreases |tokens| - pos
      {
        assert Spec.OpLevel(CurrentToken().kind) == 1;
        var op := CurrentToken().text;
        var _ := Consume(CurrentToken().kind);
        var right :- ParseFactor();
        left := BinaryExpr(left, op, right);
      }
      r := Success(left);
    }

    method ParseFactor() returns (r: Result<Expr>)
      requires Valid()
      modifies this
      ensures Valid() && old(pos) <= pos
      ensures Agrees(r, Spec.ParseLevel(0, tokens, old(pos)), pos)
      decreases |tokens| - pos, 1
    {
      if CurrentToken().kind == Number {
        var txt := CurrentToken().text;
        var val: real;
        if '.' in txt {
          val := Spec.Stod(txt);
        } else {
          var n := Spec.Stoi(txt);
          if n > Spec.IntMax {
            return Failure(Spec.StoiOutOfRange);
          }
          val := n as real;
        }
        var _ := Consume(Number);
        r := Success(NumberExpr(val));
      } else if CurrentToken().kind == Identifier {
        var name := CurrentToken().text;
        var _ := Consume(Identifier);
        r := Success(VariableExpr(name));
      } else if CurrentToken().kind == LParen {
        var _ := Consume(LParen);
        var expr :- ParseExpression();
        var _ :- Consume(RParen);
        r := Success(expr);
      } else if CurrentToken().kind == StringLiteral {
        var val := CurrentToken().text;
        var _ := Consume(StringLiteral);
        r := Success(StringExpr(val));
      } else {
        r := Failure(Spec.UnexpectedInFactor(CurrentToken()));
      }
    }

    // -------------------------------------------------------------------
    // Statements
    // -------------------------------------------------------------------

    method ParseDeclaration() returns (r: Result<Stmt>)
      requires Valid()
      modifies this
      ensures Valid() && old(pos) <= pos
      ensures AgreesStmt(r, Spec.ParseDeclaration(tokens, old(pos)), pos)
    {
      var typeToken := CurrentToken();
      if !Spec.IsTypeKind(typeToken.kind) {
        return Failure(Spec.ExpectedTypeDeclaration);
      }
      var _ := Consume(typeToken.kind);
      var name := CurrentToken().text;
      var _ :- Consume(Identifier);
      var _ :- Consume(Equal);
      var expr :- ParseExpression();
      var _ :- Consume(Semicolon);
      r := Success(DeclStmt(typeToken.kind, name, expr));
    }

    method ParsePrintStmt() returns (r: Result<Stmt>)
      requires Valid()
      modifies this
      ensures Valid() && old(pos) <= pos
      ensures AgreesStmt(r, Spec.ParsePrintStmt(tokens, old(pos)), pos)
    {
      var _ :- Consume(Print);
      var _ :- Consume(LParen);
      var expr :- ParseExpression();
      var _ :- Consume(RParen);
      var _ :- Consume(Semicolon);
      r := Success(PrintStmt(expr));
    }

    method ParseAssignStmt() returns (r: Result<Stmt>)
      requires Valid()
      modifies this
      ensures Valid() && old(pos) <= pos
      ensures AgreesStmt(r, Spec.ParseAssignStmt(tokens, old(pos)), pos)
    {
      var name := CurrentToken().text;
      var _ :- Consume(Identifier);
      var _ :- Consume(Equal);
      var expr :- ParseExpression();
      var _ :- Consume(Semicolon);
      r := Success(AssignStmt(name, expr));
    }

    method ParseIfStmt() returns (r: Result<Stmt>)
      requires Valid()
      modifies this
      ensures Valid() && old(pos) <= pos
      ensures AgreesStmt(r, Spec.ParseIfStmt(tokens, old(pos)), pos)
      decreases |tokens| - pos, 1
    {
      var _ :- Consume(IfType);
      var _ :- Consume(LParen);
      var condition :- ParseExpression();
      var _ :- Consume(RParen);
      r := ParseIfBranches(condition);
    }

    /** The then-statement, and the else-statement when `elsa` follows it. */
    method ParseIfBranches(condition: Expr) returns (r: Result<Stmt>)
      requires Valid()
      modifies this
      ensures Valid() && old(pos) <= pos
      ensures AgreesStmt(r, Spec.IfBranches(tokens, condition, old(pos)), pos)
      decreases |tokens| - pos, 3
    {
      var thenBranch :- ParseStatement();
      var elseBranch: Option<Stmt> := None;
      if CurrentToken().kind == ElseType {
        var _ := Consume(ElseType);
        var e :- ParseStatement();
        elseBranch := Some(e);
      }
      r := Success(IfStmt(condition, thenBranch, elseBranch));
    }

    method ParseWhileStmt() returns (r: Result<Stmt>)
      requires Valid()
      modifies this
      ensures Valid() && old(pos) <= pos
      ensures AgreesStmt(r, Spec.ParseWhileStmt(tokens, old(pos)), pos)
      decreases |tokens| - pos, 1
    {
      var _ :- Consume(WhileType);
      var _ :- Consume(LParen);
      var condition :- ParseExpression();
      var _ :- Consume(RParen);
      var body :- ParseStatement();
      r := Success(WhileStmt(condition, body));
    }

    method ParseStatement() returns (r: Result<Stmt>)
      requires Valid()
      modifies this
      ensures Valid() && old(pos) <= pos
      ensures AgreesStmt(r, Spec.ParseStatement(tokens, old(pos)), pos)
      decreases |tokens| - pos, 2
    {
      if CurrentToken().kind == Print {
        r := ParsePrintStmt();
      } else if CurrentToken().kind == IfType {
        r := ParseIfStmt();
      } else if CurrentToken().kind == WhileType {
        r := ParseWhileStmt();
      } else if CurrentToken().kind == LBrace {
        r := ParseBlockStmt();
      } else if Spec.IsTypeKind(CurrentToken().kind) {
        r := ParseDeclaration();
      } else if CurrentToken().kind == Identifier && pos + 1 < |tokens| && tokens[pos + 1].kind == Equal {
        r := ParseAssignStmt();
      } else {
        r := Failure(Spec.UnexpectedInStatement(CurrentToken()));
      }
    }

    method ParseBlockStmt() returns (r: Result<Stmt>)
      requires Valid()
      modifies this
      ensures Valid() && old(pos) <= pos
      ensures AgreesStmt(r, Spec.ParseBlockStmt(tokens, old(pos)), pos)
      decreases |tokens| - pos, 1
    {
      var _ :- Consume(LBrace);
      var stmts: seq<Stmt> := [];
      while CurrentToken().kind != RBrace && CurrentToken().kind != End
        invariant Valid() && old(pos) < pos
        invariant Spec.ParseBlockStmt(tokens, old(pos)) == Spec.BlockLoop(tokens, pos, stmts)
        decreases |tokens| - pos
      {
        var s :- ParseStatement();
        stmts := stmts + [s];
      }
      var _ :- Consume(RBrace);
      r := Success(BlockStmt(stmts));
    }

    /** Statements until End, with the top-level dispatch of parser.cpp. */
    method ParseProgram() returns (r: Result<seq<Stmt>>)
      requires Valid() && Spec.ParserInput(tokens)
      modifies this
      ensures Valid()
      ensures r == Spec.ProgramLoop(tokens, old(pos), [])
      ensures r.Success? ==> CurrentToken().kind == End
    {
      var statements: seq<Stmt> := [];
      while CurrentToken().kind != End
        invariant Valid()
        invariant Spec.ProgramLoop(tokens, old(pos), []) == Spec.ProgramLoop(tokens, pos, statements)
        decreases |tokens| - pos
      {
        var s: Stmt;
        if Spec.IsTypeKind(CurrentToken().kind) {
          s :- ParseDeclaration();
        } else if CurrentToken().kind == Identifier && tokens[pos + 1].kind == Equal {
          s :- ParseAssignStmt();
        } else if CurrentToken().kind == Print {
          s :- ParsePrintStmt();
        } else if CurrentToken().kind == IfType {
          s :- ParseIfStmt();
        } else if CurrentToken().kind == WhileType {
          s :- ParseWhileStmt();
        } else {
          return Failure(Spec.UnexpectedToken(CurrentToken()));
        }
        statements := statements + [s];
      }
      r := Success(statements);
    }
  }
}
