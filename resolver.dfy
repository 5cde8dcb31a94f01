/** Resolver.kt: the static pass over the syntax tree, as a class whose
    fields are the scope stack, the current function and class kinds, the
    reports sent to `Lox.error` and the calls made to
    `interpreter.resolve`. Every method is proved to leave the resolver in
    exactly the state ResolverSpec describes. */
module Resolving {
  import opened Wrappers
  import opened Tokens
  import opened Ast
  import R = ResolverSpec

  class Resolver {
    var scopes: seq<R.Scope>
    var currentFunction: R.FunctionType
    var currentClass: R.ClassType
    var errors: seq<Diag>
    var resolutions: seq<R.Resolution>

    function State(): R.RState
      reads this
    {
      R.RState(scopes, currentFunction, currentClass, errors, resolutions)
    }

    constructor ()
      ensures State() == R.Initial
    {
      scopes := [];
      currentFunction := R.FunctionType.NONE;
      currentClass := R.ClassType.NONE;
      errors := [];
      resolutions := [];
    }

    /** `beginScope`. */
    method BeginScope()
      modifies this
      ensures State() == R.BeginScope(old(State()))
    {
      scopes := scopes + [map[]];
    }

    /** `endScope`. */
    method EndScope()
      requires |scopes| > 0
      modifies this
      ensures State() == R.EndScope(old(State()))
    {
      scopes := scopes[..|scopes| - 1];
    }

    /** `declare`. */
    method Declare(name: Token)
      modifies this
      ensures State() == R.Declare(old(State()), name)
    {
      if |scopes| == 0 {
        return;
      }
      var scope := scopes[|scopes| - 1];
      if name.lexeme in scope {
        errors := errors + [Diag(name, "Already a variable with this name in this scope.")];
      }
      scopes := scopes[..|scopes| - 1] + [scope[name.lexeme := false]];
    }

    /** `define`. */
    method Define(name: Token)
      modifies this
      ensures State() == R.Define(old(State()), name)
    {
      if |scopes| == 0 {
        return;
      }
      scopes := scopes[..|scopes| - 1] + [scopes[|scopes| - 1][name.lexeme := true]];
    }

    /** `resolveLocal`: walks the scopes from the innermost outwards. */
    method ResolveLocal(node: nat, name: Token)
      modifies this
      ensures State() == R.ResolveLocal(old(State()), node, name)
    {
      var i := |scopes| - 1;
      while i >= 0
        invariant -1 <= i < |scopes|
        invariant scopes == old(scopes) && errors == old(errors)
        invariant currentFunction == old(currentFunction) && currentClass == old(currentClass)
        invariant resolutions + R.ResolveLocalLoop(scopes, node, name.lexeme, i + 1)
               == old(resolutions) + R.LocalResolutions(scopes, node, name)
        decreases i
      {
        ghost var found := if name.lexeme in scopes[i] then [R.Resolution(node, |scopes| - 1 - i)] else [];
        ghost var rest := R.ResolveLocalLoop(scopes, node, name.lexeme, i);
        assert R.ResolveLocalLoop(scopes, node, name.lexeme, i + 1) == found + rest;
        ghost var before := resolutions;
        if name.lexeme in scopes[i] {
          resolutions := resolutions + [R.Resolution(node, |scopes| - 1 - i)];
        }
        assert resolutions == before + found;
        R.ConcatAssoc(before, found, rest);
        i := i - 1;
      }
    }

    /** `resolveFunction`. */
    method ResolveFunction(f: FunDecl, kind: R.FunctionType)
      modifies this
      ensures State() == R.ResolveFunction(old(State()), f, kind)
      decreases FunSize(f), 0
    {
      var enclosingFunction := currentFunction;
      currentFunction := kind;
      BeginScope();
      ghost var withScope := State();
      for i := 0 to |f.params|
        invariant |scopes| > 0
        invariant R.DeclareParams(State(), f.params[i..]) == R.DeclareParams(withScope, f.params)
      {
        var param := f.params[i];
        assert f.params[i..][1..] == f.params[i + 1..];
        Declare(param);
        Define(param);
      }
      ResolveStmts(f.body);
      EndScope();
      currentFunction := enclosingFunction;
    }

    /** `resolve(statements)`: the `null` entries left by parse errors are
        skipped. */
    method ResolveStmts(statements: seq<Option<Stmt>>)
      modifies this
      ensures State() == R.ResolveStmts(old(State()), statements)
      decreases StmtsSize(statements), 0
    {
      for i := 0 to |statements|
        invariant R.ResolveStmts(State(), statements[i..]) == R.ResolveStmts(old(State()), statements)
      {
        assert statements[i..][1..] == statements[i + 1..];
        if statements[i].Some? {
          StmtsSizeElement(statements, i);
          ResolveStmt(statements[i].value);
        }
      }
    }

    /** `resolve(stmt)`: dispatch to the visitor. */
    method ResolveStmt(stmt: Stmt)
      modifies this
      ensures State() == R.ResolveStmt(old(State()), stmt)
      decreases StmtSize(stmt), 1
    {
      match stmt
      case Block(_) => VisitBlockStmt(stmt);
      case Class(_, _) => VisitClassStmt(stmt);
      case Expression(_) => VisitExpressionStmt(stmt);
      case Function(_) => VisitFunctionStmt(stmt);
      case If(_, _, _) => VisitIfStmt(stmt);
      case Print(_) => VisitPrintStmt(stmt);
      case Return(_, _) => VisitReturnStmt(stmt);
      case Var(_, _) => VisitVarStmt(stmt);
      case While(_, _) => VisitWhileStmt(stmt);
    }

    method VisitBlockStmt(stmt: Stmt)
      requires stmt.Block?
      modifies this
      ensures State() == R.VisitBlock(old(State()), stmt.statements)
      decreases StmtSize(stmt), 0
    {
      BeginScope();
      ResolveStmts(stmt.statements);
      EndScope();
    }

    method VisitClassStmt(stmt: Stmt)
      requires stmt.Class?
      modifies this
      ensures State() == R.VisitClass(old(State()), stmt.name, stmt.methods)
      decreases StmtSize(stmt), 0
    {
      assert StmtSize(stmt) == 1 + FunsSize(stmt.methods);
      var enclosingClass := currentClass;
      currentClass := R.ClassType.CLASS;
      ghost var inClass := State();
      assert inClass == old(State()).(currentClass := R.ClassType.CLASS);
      Declare(stmt.name);
      Define(stmt.name);
      ghost var declared := State();
      assert declared == R.Define(R.Declare(inClass, stmt.name), stmt.name);
      BeginScope();
      ghost var scoped := State();
      scopes := scopes[..|scopes| - 1] + [scopes[|scopes| - 1]["this" := true]];
      ghost var withThis := State();
      assert withThis == R.PutTop(scoped, "this", true);
      ResolveMethods(stmt.methods);
      EndScope();
      currentClass := enclosingClass;
    }

    /** The method loop of `visitClassStmt`: each method is resolved as an
        initializer when it is named `init`, as a method otherwise. */
    method ResolveMethods(methods: seq<FunDecl>)
      modifies this
      ensures State() == R.ResolveMethods(old(State()), methods)
      decreases FunsSize(methods), 0
    {
      for i := 0 to |methods|
        invariant R.ResolveMethods(State(), methods[i..]) == R.ResolveMethods(old(State()), methods)
      {
        var methodDecl := methods[i];
        var declaration := if methodDecl.name.lexeme == "init" then R.FunctionType.INITIALIZER
                           else R.FunctionType.METHOD;
        assert declaration == R.MethodKind(methodDecl);
        assert methods[i..][1..] == methods[i + 1..];
        FunsSizeElement(methods, i);
        ResolveFunction(methodDecl, declaration);
      }
    }

    method VisitExpressionStmt(stmt: Stmt)
      requires stmt.Expression?
      modifies this
      ensures State() == R.ResolveStmt(old(State()), stmt)
      decreases StmtSize(stmt), 0
    {
      ResolveExpr(stmt.expr);
    }

    method VisitFunctionStmt(stmt: Stmt)
      requires stmt.Function?
      modifies this
      ensures State() == R.ResolveStmt(old(State()), stmt)
      decreases StmtSize(stmt), 0
    {
      Declare(stmt.decl.name);
      Define(stmt.decl.name);
      ResolveFunction(stmt.decl, R.FunctionType.FUNCTION);
    }

    method VisitIfStmt(stmt: Stmt)
      requires stmt.If?
      modifies this
      ensures State() == R.ResolveStmt(old(State()), stmt)
      decreases StmtSize(stmt), 0
    {
      ResolveExpr(stmt.condition);
      ResolveStmt(stmt.thenBranch);
      if stmt.elseBranch.Some? {
        ResolveStmt(stmt.elseBranch.value);
      }
    }

    method VisitPrintStmt(stmt: Stmt)
      requires stmt.Print?
      modifies this
      ensures State() == R.ResolveStmt(old(State()), stmt)
      decreases StmtSize(stmt), 0
    {
      ResolveExpr(stmt.expr);
    }

    method VisitReturnStmt(stmt: Stmt)
      requires stmt.Return?
      modifies this
      ensures State() == R.ResolveStmt(old(State()), stmt)
      decreases StmtSize(stmt), 0
    {
      if currentFunction == R.FunctionType.NONE {
        errors := errors + [Diag(stmt.keyword, "Can't return from top-level code.")];
      }
      if stmt.value.Some? {
        if currentFunction == R.FunctionType.INITIALIZER {
          errors := errors + [Diag(stmt.keyword, "Can't return a value from an initializer.")];
        }
        ResolveExpr(stmt.value.value);
      }
    }

    method VisitVarStmt(stmt: Stmt)
      requires stmt.Var?
      modifies this
      ensures State() == R.ResolveStmt(old(State()), stmt)
      decreases StmtSize(stmt), 0
    {
      Declare(stmt.name);
      if stmt.initializer.Some? {
        ResolveExpr(stmt.initializer.value);
      }
      Define(stmt.name);
    }

    method VisitWhileStmt(stmt: Stmt)
      requires stmt.While?
      modifies this
      ensures State() == R.ResolveStmt(old(State()), stmt)
      decreases StmtSize(stmt), 0
    {
      ResolveExpr(stmt.condition);
      ResolveStmt(stmt.body);
    }

    /** `resolve(expr)`: dispatch to the visitor. */
    method ResolveExpr(expr: Expr)
      modifies this
      ensures State() == R.ResolveExpr(old(State()), expr)
      decreases ExprSize(expr), 1
    {
      match expr
      case Assign(_, _, _) => VisitAssignExpr(expr);
      case Binary(_, _, _) => VisitBinaryExpr(expr);
      case Call(_, _, _) => VisitCallExpr(expr);
      case Get(_, _) => VisitGetExpr(expr);
      case Grouping(_) => VisitGroupingExpr(expr);
      case Literal(_) => VisitLiteralExpr(expr);
      case Logical(_, _, _) => VisitLogicalExpr(expr);
      case Set(_, _, _) => VisitSetExpr(expr);
      case This(_, _) => VisitThisExpr(expr);
      case Unary(_, _) => VisitUnaryExpr(expr);
      case Variable(_, _) => VisitVariableExpr(expr);
    }

    method VisitAssignExpr(expr: Expr)
      requires expr.Assign?
      modifies this
      ensures State() == R.ResolveExpr(old(State()), expr)
      decreases ExprSize(expr), 0
    {
      ResolveExpr(expr.rvalue);
      ResolveLocal(expr.id, expr.name);
    }

    method VisitBinaryExpr(expr: Expr)
      requires expr.Binary?
      modifies this
      ensures State() == R.ResolveExpr(old(State()), expr)
      decreases ExprSize(expr), 0
    {
      ResolveExpr(expr.left);
      ResolveExpr(expr.right);
    }

    method VisitCallExpr(expr: Expr)
      requires expr.Call?
      modifies this
      ensures State() == R.ResolveExpr(old(State()), expr)
      decreases ExprSize(expr), 0
    {
      ResolveExpr(expr.callee);
      ghost var afterCallee := State();
      for i := 0 to |expr.arguments|
        invariant R.ResolveExprs(State(), expr.arguments[i..]) == R.ResolveExprs(afterCallee, expr.arguments)
      {
        assert expr.arguments[i..][1..] == expr.arguments[i + 1..];
        ExprsSizeElement(expr.arguments, i);
        ResolveExpr(expr.arguments[i]);
      }
    }

    method VisitGetExpr(expr: Expr)
      requires expr.Get?
      modifies this
      ensures State() == R.ResolveExpr(old(State()), expr)
      decreases ExprSize(expr), 0
    {
      ResolveExpr(expr.obj);
    }

    method VisitGroupingExpr(expr: Expr)
      requires expr.Grouping?
      modifies this
      ensures State() == R.ResolveExpr(old(State()), expr)
      decreases ExprSize(expr), 0
    {
      ResolveExpr(expr.expr);
    }

    method VisitLiteralExpr(expr: Expr)
      requires expr.Literal?
      ensures State() == R.ResolveExpr(State(), expr)
    {
    }

    method VisitLogicalExpr(expr: Expr)
      requires expr.Logical?
      modifies this
      ensures State() == R.ResolveExpr(old(State()), expr)
      decreases ExprSize(expr), 0
    {
      ResolveExpr(expr.left);
      ResolveExpr(expr.right);
    }

    /** `visitSetExpr`: the assigned value is resolved before the object. */
    method VisitSetExpr(expr: Expr)
      requires expr.Set?
      modifies this
      ensures State() == R.ResolveExpr(old(State()), expr)
      decreases ExprSize(expr), 0
    {
      ResolveExpr(expr.rvalue);
      ResolveExpr(expr.obj);
    }

    method VisitThisExpr(expr: Expr)
      requires expr.This?
      modifies this
      ensures State() == R.ResolveExpr(old(State()), expr)
    {
      if currentClass == R.ClassType.NONE {
        errors := errors + [Diag(expr.keyword, "Can't use 'this' outside of a class.")];
        return;
      }
      ResolveLocal(expr.id, expr.keyword);
    }

    method VisitUnaryExpr(expr: Expr)
      requires expr.Unary?
      modifies this
      ensures State() == R.ResolveExpr(old(State()), expr)
      decreases ExprSize(expr), 0
    {
      ResolveExpr(expr.right);
    }

    method VisitVariableExpr(expr: Expr)
      requires expr.Variable?
      modifies this
      ensures State() == R.ResolveExpr(old(State()), expr)
    {
      if |scopes| > 0 && expr.name.lexeme in scopes[|scopes| - 1] && !scopes[|scopes| - 1][expr.name.lexeme] {
        errors := errors + [Diag(expr.name, "Can't read local variable in its own initializer")];
      }
      ResolveLocal(expr.id, expr.name);
    }
  }
}
