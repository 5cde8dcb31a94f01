/** What Resolver.kt guarantees, stated over the functions of ResolverSpec:
    which scopes `resolveLocal` reports, the errors the visitors report, and
    what a declaration leaves in the innermost scope. */
module ResolverProperties {
  import opened Wrappers
  import opened Tokens
  import opened Ast
  import opened ResolverSpec

  // ---- resolveLocal ----

  /** The loop of `resolveLocal` over scopes n-1 down to 0 reports only
      scopes among them that hold the name. */
  lemma {:induction false} LoopReportsOnlyHoldingScopes(scopes: seq<Scope>, node: nat, name: string, n: nat)
    requires n <= |scopes|
    ensures var r := ResolveLocalLoop(scopes, node, name, n);
      forall k :: 0 <= k < |r| ==>
        r[k].node == node && |scopes| - n <= r[k].depth < |scopes| &&
        name in scopes[|scopes| - 1 - r[k].depth]
    decreases n
  {
    if n > 0 {
      LoopReportsOnlyHoldingScopes(scopes, node, name, n - 1);
      var found := if name in scopes[n - 1] then [Resolution(node, |scopes| - n)] else [];
      assert ResolveLocalLoop(scopes, node, name, n) == found + ResolveLocalLoop(scopes, node, name, n - 1);
    }
  }

  /** ... and every one of them that holds the name. */
  lemma {:induction false} LoopReportsEveryHoldingScope(scopes: seq<Scope>, node: nat, name: string, n: nat)
    requires n <= |scopes|
    ensures forall i :: 0 <= i < n && name in scopes[i] ==>
      Resolution(node, |scopes| - 1 - i) in ResolveLocalLoop(scopes, node, name, n)
    decreases n
  {
    if n > 0 {
      LoopReportsEveryHoldingScope(scopes, node, name, n - 1);
      var found := if name in scopes[n - 1] then [Resolution(node, |scopes| - n)] else [];
      assert ResolveLocalLoop(scopes, node, name, n) == found + ResolveLocalLoop(scopes, node, name, n - 1);
    }
  }

  /** Distances strictly increase along a list of reports. */
  predicate Increasing(r: seq<Resolution>) {
    forall a, b :: 0 <= a < b < |r| ==> r[a].depth < r[b].depth
  }

  lemma IncreasingCons(x: Resolution, rest: seq<Resolution>)
    requires Increasing(rest)
    requires forall k :: 0 <= k < |rest| ==> x.depth < rest[k].depth
    ensures Increasing([x] + rest)
  {
    var r := [x] + rest;
    forall a, b | 0 <= a < b < |r| ensures r[a].depth < r[b].depth {
      assert r[b] == rest[b - 1];
      if a > 0 {
        assert r[a] == rest[a - 1];
      }
    }
  }

  /** ... in increasing distance from the innermost scope. */
  lemma {:induction false} LoopReportsInnermostFirst(scopes: seq<Scope>, node: nat, name: string, n: nat)
    requires n <= |scopes|
    ensures Increasing(ResolveLocalLoop(scopes, node, name, n))
    decreases n
  {
    if n > 0 {
      LoopReportsInnermostFirst(scopes, node, name, n - 1);
      var rest := ResolveLocalLoop(scopes, node, name, n - 1);
      if name in scopes[n - 1] {
        IncreasingCons(Resolution(node, |scopes| - n), rest);
        assert ResolveLocalLoop(scopes, node, name, n) == [Resolution(node, |scopes| - n)] + rest;
      } else {
        assert ResolveLocalLoop(scopes, node, name, n) == rest;
      }
    }
  }

  /** ... so the first report is for the innermost scope holding the name. */
  lemma {:induction false} LoopReportsNearestFirst(scopes: seq<Scope>, node: nat, name: string, n: nat)
    requires n <= |scopes|
    ensures var r := ResolveLocalLoop(scopes, node, name, n);
      |r| > 0 ==> forall i :: 0 <= i < n && name in scopes[i] ==> r[0].depth <= |scopes| - 1 - i
    decreases n
  {
    if n > 0 {
      LoopReportsNearestFirst(scopes, node, name, n - 1);
      var found := if name in scopes[n - 1] then [Resolution(node, |scopes| - n)] else [];
      assert ResolveLocalLoop(scopes, node, name, n) == found + ResolveLocalLoop(scopes, node, name, n - 1);
    }
  }

  /** `resolveLocal` calls `interpreter.resolve` once for every scope that
      holds the name, with that scope's distance from the innermost one, in
      increasing distance; the first call is for the innermost such scope.
      (The loop has no `break`, so a shadowed name is reported at every
      level that declares it.) */
  lemma LocalResolutionsExact(scopes: seq<Scope>, node: nat, name: Token)
    ensures var r := LocalResolutions(scopes, node, name);
      (forall k :: 0 <= k < |r| ==>
         r[k].node == node && r[k].depth < |scopes| &&
         name.lexeme in scopes[|scopes| - 1 - r[k].depth]) &&
      (forall i :: 0 <= i < |scopes| && name.lexeme in scopes[i] ==> Resolution(node, |scopes| - 1 - i) in r) &&
      Increasing(r) &&
      (|r| > 0 ==> forall i :: 0 <= i < |scopes| && name.lexeme in scopes[i] ==> r[0].depth <= |scopes| - 1 - i)
  {
    LoopReportsOnlyHoldingScopes(scopes, node, name.lexeme, |scopes|);
    LoopReportsEveryHoldingScope(scopes, node, name.lexeme, |scopes|);
    LoopReportsInnermostFirst(scopes, node, name.lexeme, |scopes|);
    LoopReportsNearestFirst(scopes, node, name.lexeme, |scopes|);
  }

  /** A global name (one no scope holds), and in particular any name at
      top level, gets no `interpreter.resolve` call. */
  lemma GlobalIffNoResolution(scopes: seq<Scope>, node: nat, name: Token)
    ensures LocalResolutions(scopes, node, name) == [] <==>
      forall i :: 0 <= i < |scopes| ==> name.lexeme !in scopes[i]
  {
    LocalResolutionsExact(scopes, node, name);
    var r := LocalResolutions(scopes, node, name);
    if r != [] {
      assert name.lexeme in scopes[|scopes| - 1 - r[0].depth];
    }
  }

  /** A name declared both in a block and in the block around it: the
      loop reports both the inner distance 0 and the outer distance 1. */
  lemma ShadowedNameReportedTwice(node: nat, name: Token)
    ensures var scope := map[name.lexeme := true];
      LocalResolutions([scope, scope], node, name) == [Resolution(node, 0), Resolution(node, 1)]
  {
    var scope := map[name.lexeme := true];
    assert ResolveLocalLoop([scope, scope], node, name.lexeme, 0) == [];
    assert ResolveLocalLoop([scope, scope], node, name.lexeme, 1) == [Resolution(node, 1)];
  }

  /** With no scopes at all (top level), resolving an expression makes no
      `interpreter.resolve` call. */
  lemma {:induction false} GlobalExprNoResolution(st: RState, e: Expr)
    requires st.scopes == []
    ensures ResolveExpr(st, e).resolutions == st.resolutions
    decreases ExprSize(e), 1
  {
    match e
    case Assign(id, name, value) =>
      GlobalExprNoResolution(st, value);
      GlobalIffNoResolution([], id, name);
    case Binary(left, _, right) =>
      GlobalExprNoResolution(st, left);
      GlobalExprNoResolution(ResolveExpr(st, left), right);
    case Call(callee, _, arguments) =>
      GlobalExprNoResolution(st, callee);
      GlobalExprsNoResolution(ResolveExpr(st, callee), arguments);
    case Get(obj, _) => GlobalExprNoResolution(st, obj);
    case Grouping(inner) => GlobalExprNoResolution(st, inner);
    case Literal(_) =>
    case Logical(left, _, right) =>
      GlobalExprNoResolution(st, left);
      GlobalExprNoResolution(ResolveExpr(st, left), right);
    case Set(obj, _, value) =>
      GlobalExprNoResolution(st, value);
      GlobalExprNoResolution(ResolveExpr(st, value), obj);
    case This(id, keyword) => GlobalIffNoResolution([], id, keyword);
    case Unary(_, right) => GlobalExprNoResolution(st, right);
    case Variable(id, name) => GlobalIffNoResolution([], id, name);
  }

  lemma {:induction false} GlobalExprsNoResolution(st: RState, es: seq<Expr>)
    requires st.scopes == []
    ensures ResolveExprs(st, es).resolutions == st.resolutions
    decreases ExprsSize(es), 0
  {
    if es != [] {
      ExprsSizeElement(es, 0);
      GlobalExprNoResolution(st, es[0]);
      GlobalExprsNoResolution(ResolveExpr(st, es[0]), es[1..]);
    }
  }

  // ---- errors the visitors report ----

  /** `declare` reports "Already a variable with this name in this scope."
      exactly when the innermost scope already holds the name; at top level
      it does nothing. */
  lemma DuplicateDeclaration(st: RState, name: Token)
    ensures var r := Declare(st, name);
      (st.scopes != [] && name.lexeme in st.scopes[|st.scopes| - 1] ==>
         r.errors == st.errors + [Diag(name, "Already a variable with this name in this scope.")]) &&
      (st.scopes == [] || name.lexeme !in st.scopes[|st.scopes| - 1] ==> r.errors == st.errors) &&
      (st.scopes == [] ==> r == st)
  {
  }

  /** `var a = a;` inside a block reads `a` while it is declared but not
      defined: "Can't read local variable in its own initializer" is
      reported. */
  lemma SelfInitializerReported(st: RState, name: Token, id: nat, use: Token)
    requires st.scopes != [] && name.lexeme !in st.scopes[|st.scopes| - 1]
    requires use.lexeme == name.lexeme
    ensures ResolveStmt(st, Var(name, Some(Variable(id, use)))).errors ==
      st.errors + [Diag(use, "Can't read local variable in its own initializer")]
  {
    var st1 := Declare(st, name);
    assert st1.errors == st.errors;
    assert InOwnInitializer(st1.scopes, use.lexeme);
    var st2 := ResolveExpr(st1, Variable(id, use));
    assert st2.errors == st.errors + [Diag(use, "Can't read local variable in its own initializer")];
    assert ResolveStmt(st, Var(name, Some(Variable(id, use)))) == Define(st2, name);
  }

  lemma PrefixOfLonger(a: seq<Diag>, b: seq<Diag>)
    requires a <= b
    ensures b[..|a|] == a
  {
  }

  /** `return` outside any function reports "Can't return from top-level
      code." before anything else. */
  lemma ReturnAtTopLevel(st: RState, keyword: Token, value: Option<Expr>)
    requires st.currentFunction == FunctionType.NONE
    ensures var r := ResolveStmt(st, Return(keyword, value));
      r.errors[..|st.errors| + 1] == st.errors + [Diag(keyword, "Can't return from top-level code.")]
  {
    var r := VisitReturn(st, keyword, value);
    assert ResolveStmt(st, Return(keyword, value)) == r;
    var st1 := Report(st, keyword, "Can't return from top-level code.");
    if value.Some? {
      var st2 := if st.currentFunction == FunctionType.INITIALIZER
        then Report(st1, keyword, "Can't return a value from an initializer.")
        else st1;
      assert r == ResolveExpr(st2, value.value);
      assert st1.errors <= st2.errors <= r.errors;
    }
    PrefixOfLonger(st1.errors, r.errors);
  }

  /** `return value;` inside an initializer reports "Can't return a value
      from an initializer." before anything else. */
  lemma ReturnValueFromInitializer(st: RState, keyword: Token, value: Expr)
    requires st.currentFunction == FunctionType.INITIALIZER
    ensures var r := ResolveStmt(st, Return(keyword, Some(value)));
      r.errors[..|st.errors| + 1] == st.errors + [Diag(keyword, "Can't return a value from an initializer.")]
  {
    var r := VisitReturn(st, keyword, Some(value));
    assert ResolveStmt(st, Return(keyword, Some(value))) == r;
    var st2 := Report(st, keyword, "Can't return a value from an initializer.");
    assert r == ResolveExpr(st2, value);
    PrefixOfLonger(st2.errors, r.errors);
  }

  /** A bare `return;` inside a function or method changes nothing. */
  lemma ReturnInFunction(st: RState, keyword: Token, value: Option<Expr>)
    requires st.currentFunction != FunctionType.NONE
    ensures value.None? ==> ResolveStmt(st, Return(keyword, value)) == st
    ensures value.Some? && st.currentFunction != FunctionType.INITIALIZER ==>
      ResolveStmt(st, Return(keyword, value)) == ResolveExpr(st, value.value)
  {
    assert ResolveStmt(st, Return(keyword, value)) == VisitReturn(st, keyword, value);
  }

  /** `this` outside a class is reported and resolved nowhere. */
  lemma ThisOutsideClass(st: RState, id: nat, keyword: Token)
    requires st.currentClass == ClassType.NONE
    ensures ResolveExpr(st, This(id, keyword)) ==
      st.(errors := st.errors + [Diag(keyword, "Can't use 'this' outside of a class.")])
  {
  }

  /** Inside a class, `this` reports nothing. */
  lemma ThisInClass(st: RState, id: nat, keyword: Token)
    requires st.currentClass != ClassType.NONE
    ensures ResolveExpr(st, This(id, keyword)).errors == st.errors
  {
  }

  /** A variable read reports the initializer error exactly when the name is
      declared but not defined in the innermost scope. */
  lemma VariableRead(st: RState, id: nat, name: Token)
    ensures ResolveExpr(st, Variable(id, name)).errors == st.errors +
      (if InOwnInitializer(st.scopes, name.lexeme)
       then [Diag(name, "Can't read local variable in its own initializer")] else [])
  {
  }

  /** Inside a method body's scope, directly below the class scope that
      binds `this`, `this` is first resolved at distance 1. */
  lemma ThisInMethod(st: RState, id: nat, keyword: Token)
    requires st.currentClass == ClassType.CLASS && keyword.lexeme == "this"
    requires |st.scopes| >= 2 && "this" in st.scopes[|st.scopes| - 2] && "this" !in st.scopes[|st.scopes| - 1]
    ensures var r := ResolveExpr(st, This(id, keyword));
      |r.resolutions| > |st.resolutions| && r.resolutions[|st.resolutions|] == Resolution(id, 1)
  {
    LocalResolutionsExact(st.scopes, id, keyword);
    assert Resolution(id, 1) in LocalResolutions(st.scopes, id, keyword);
  }

  // ---- what declarations leave in the innermost scope ----

  /** After `var name ...;` in a local scope the name is ready there. */
  lemma VarReady(st: RState, name: Token, initializer: Option<Expr>)
    requires st.scopes != []
    ensures Ready(ResolveStmt(st, Var(name, initializer)).scopes, name.lexeme)
  {
  }

  /** After `fun name(...) {...}` in a local scope the name is ready there
      (ready before the body is resolved, so the function can recurse). */
  lemma FunctionReady(st: RState, decl: FunDecl)
    requires st.scopes != []
    ensures Ready(ResolveStmt(st, Function(decl)).scopes, decl.name.lexeme)
  {
    var st1 := Define(Declare(st, decl.name), decl.name);
    assert Ready(st1.scopes, decl.name.lexeme);
  }

  /** After `class name {...}` in a local scope the name is ready there, and
      the scope holding `this` is gone. */
  lemma ClassReady(st: RState, name: Token, methods: seq<FunDecl>)
    requires st.scopes != []
    ensures var r := ResolveStmt(st, Class(name, methods));
      |r.scopes| == |st.scopes| && Ready(r.scopes, name.lexeme)
  {
    var st1 := Define(Declare(st.(currentClass := ClassType.CLASS), name), name);
    var st2 := PutTop(BeginScope(st1), "this", true);
    var st3 := ResolveMethods(st2, methods);
    assert st3.scopes[..|st3.scopes| - 1] == st1.scopes;
  }
}
