/** Resolver.kt as functions of the resolver's state. The scope stack is a
    sequence whose last element is the innermost scope; each scope maps a
    name to whether its declaration is complete ("ready"). Every report to
    `Lox.error` is appended to `errors`, and every call
    `interpreter.resolve(expr, depth)` to `resolutions`, keyed by the id of
    the Variable, Assign or This node. */
module ResolverSpec {
  import opened Wrappers
  import opened Tokens
  import opened Ast

  datatype FunctionType = NONE | FUNCTION | INITIALIZER | METHOD
  datatype ClassType = NONE | CLASS

  /** One call `interpreter.resolve(expr, depth)`. */
  datatype Resolution = Resolution(node: nat, depth: nat)

  type Scope = map<string, bool>

  datatype RState = RState(
    scopes: seq<Scope>,
    currentFunction: FunctionType,
    currentClass: ClassType,
    errors: seq<Diag>,
    resolutions: seq<Resolution>)

  /** The state a Resolver starts in. */
  const Initial := RState([], FunctionType.NONE, ClassType.NONE, [], [])

  /** The diagnostics and the resolutions are only ever appended to. */
  predicate Grows(st: RState, r: RState) {
    st.errors <= r.errors && st.resolutions <= r.resolutions
  }

  /** Two scope stacks of the same depth that differ only in the innermost
      scope, which may have gained names. */
  predicate SameLevel(a: seq<Scope>, b: seq<Scope>) {
    |a| == |b| &&
    (|a| > 0 ==> a[..|a| - 1] == b[..|b| - 1] && a[|a| - 1].Keys <= b[|b| - 1].Keys)
  }

  function Report(st: RState, token: Token, message: string): (r: RState)
  {
    st.(errors := st.errors + [Diag(token, message)])
  }

  /** `beginScope`: push an empty scope. */
  function BeginScope(st: RState): (r: RState)
    ensures |r.scopes| == |st.scopes| + 1 && r.scopes[..|st.scopes|] == st.scopes
    ensures r.scopes[|st.scopes|] == map[]
    ensures r.currentFunction == st.currentFunction && r.currentClass == st.currentClass
    ensures r.errors == st.errors && r.resolutions == st.resolutions
  {
    st.(scopes := st.scopes + [map[]])
  }

  /** `endScope`: pop the innermost scope. */
  function EndScope(st: RState): (r: RState)
    requires |st.scopes| > 0
    ensures r.scopes == st.scopes[..|st.scopes| - 1]
    ensures r.currentFunction == st.currentFunction && r.currentClass == st.currentClass
    ensures r.errors == st.errors && r.resolutions == st.resolutions
  {
    st.(scopes := st.scopes[..|st.scopes| - 1])
  }

  /** `scopes.peek().put(name, ready)`. */
  function PutTop(st: RState, name: string, ready: bool): (r: RState)
    requires |st.scopes| > 0
    ensures |r.scopes| == |st.scopes|
    ensures r.scopes[..|r.scopes| - 1] == st.scopes[..|st.scopes| - 1]
    ensures r.scopes[|r.scopes| - 1] == st.scopes[|st.scopes| - 1][name := ready]
    ensures r.currentFunction == st.currentFunction && r.currentClass == st.currentClass
    ensures r.errors == st.errors && r.resolutions == st.resolutions
  {
    st.(scopes := st.scopes[..|st.scopes| - 1] + [st.scopes[|st.scopes| - 1][name := ready]])
  }

  /** `declare`: nothing at global level; otherwise the name is marked not
      ready in the innermost scope, reporting a duplicate declaration in
      that same scope. */
  function Declare(st: RState, name: Token): (r: RState)
    ensures SameLevel(st.scopes, r.scopes) && Grows(st, r)
    ensures r.resolutions == st.resolutions
    ensures r.currentFunction == st.currentFunction && r.currentClass == st.currentClass
    ensures st.scopes == [] ==> r == st
    ensures st.scopes != [] ==> r.scopes[|r.scopes| - 1] == st.scopes[|st.scopes| - 1][name.lexeme := false]
  {
    if st.scopes == [] then st
    else
      var st1 := if name.lexeme in st.scopes[|st.scopes| - 1]
        then Report(st, name, "Already a variable with this name in this scope.")
        else st;
      PutTop(st1, name.lexeme, false)
  }

  /** `define`: nothing at global level; otherwise the name is marked ready
      in the innermost scope. */
  function Define(st: RState, name: Token): (r: RState)
    ensures SameLevel(st.scopes, r.scopes)
    ensures r.currentFunction == st.currentFunction && r.currentClass == st.currentClass
    ensures r.errors == st.errors && r.resolutions == st.resolutions
    ensures st.scopes != [] ==> r.scopes[|r.scopes| - 1] == st.scopes[|st.scopes| - 1][name.lexeme := true]
  {
    if st.scopes == [] then st else PutTop(st, name.lexeme, true)
  }

  /** The calls the `downTo` loop of `resolveLocal` makes while `i` runs
      over n-1, ..., 0: one for every scope containing the name, with the
      depth counted from the innermost scope. */
  function ResolveLocalLoop(scopes: seq<Scope>, node: nat, name: string, n: nat): (r: seq<Resolution>)
    requires n <= |scopes|
    ensures |r| <= n
    ensures forall k :: 0 <= k < |r| ==> r[k].node == node && |scopes| - n <= r[k].depth < |scopes|
    decreases n
  {
    if n == 0 then []
    else
      var i := n - 1;
      (if name in scopes[i] then [Resolution(node, |scopes| - 1 - i)] else [])
      + ResolveLocalLoop(scopes, node, name, n - 1)
  }

  lemma ConcatAssoc<T>(a: seq<T>, b: seq<T>, c: seq<T>)
    ensures (a + b) + c == a + (b + c)
  {
  }

  /** `resolveLocal(expr, name)`: no call when the name is global. */
  function LocalResolutions(scopes: seq<Scope>, node: nat, name: Token): (r: seq<Resolution>)
    ensures |r| <= |scopes|
    ensures forall k :: 0 <= k < |r| ==> r[k].node == node && r[k].depth < |scopes|
  {
    ResolveLocalLoop(scopes, node, name.lexeme, |scopes|)
  }

  /** `resolveLocal`: only the recorded resolutions change; the new ones
      follow the old ones, point at `node` and number at most one per scope. */
  function ResolveLocal(st: RState, node: nat, name: Token): (r: RState)
    ensures r.scopes == st.scopes && r.errors == st.errors
    ensures r.currentFunction == st.currentFunction && r.currentClass == st.currentClass
    ensures st.resolutions <= r.resolutions
    ensures r.resolutions[|st.resolutions|..] == LocalResolutions(st.scopes, node, name)
    ensures |r.resolutions| <= |st.resolutions| + |st.scopes|
    ensures forall k :: |st.resolutions| <= k < |r.resolutions| ==>
              r.resolutions[k].node == node && r.resolutions[k].depth < |st.scopes|
  {
    st.(resolutions := st.resolutions + LocalResolutions(st.scopes, node, name))
  }

  /** Whether `name` is ready in the innermost scope. */
  predicate Ready(scopes: seq<Scope>, name: string) {
    scopes != [] && name in scopes[|scopes| - 1] && scopes[|scopes| - 1][name]
  }

  /** Whether `name` is declared but not yet defined in the innermost
      scope: the test of `visitVariableExpr`. */
  predicate InOwnInitializer(scopes: seq<Scope>, name: string) {
    scopes != [] && name in scopes[|scopes| - 1] && !scopes[|scopes| - 1][name]
  }

  // ---- expressions ----

  /** `resolve(expr)`: the `visit…Expr` methods. Expressions never change
      the scopes nor the function and class kinds, and each distance they
      record lies within the current scope stack. */
  function ResolveExpr(st: RState, e: Expr): (r: RState)
    ensures r.scopes == st.scopes && Grows(st, r)
    ensures r.currentFunction == st.currentFunction && r.currentClass == st.currentClass
    ensures forall k :: |st.resolutions| <= k < |r.resolutions| ==> r.resolutions[k].depth < |st.scopes|
    decreases ExprSize(e)
  {
    match e
    case Assign(id, name, value) => ResolveLocal(ResolveExpr(st, value), id, name)
    case Binary(left, _, right) => ResolveExpr(ResolveExpr(st, left), right)
    case Call(callee, _, arguments) => ResolveExprs(ResolveExpr(st, callee), arguments)
    case Get(obj, _) => ResolveExpr(st, obj)
    case Grouping(inner) => ResolveExpr(st, inner)
    case Literal(_) => st
    case Logical(left, _, right) => ResolveExpr(ResolveExpr(st, left), right)
    case Set(obj, _, value) => ResolveExpr(ResolveExpr(st, value), obj)
    case This(id, keyword) =>
      if st.currentClass == ClassType.NONE then Report(st, keyword, "Can't use 'this' outside of a class.")
      else ResolveLocal(st, id, keyword)
    case Unary(_, right) => ResolveExpr(st, right)
    case Variable(id, name) =>
      var st1 := if InOwnInitializer(st.scopes, name.lexeme)
        then Report(st, name, "Can't read local variable in its own initializer")
        else st;
      ResolveLocal(st1, id, name)
  }

  /** The `forEach` over a call's arguments, in order. */
  function ResolveExprs(st: RState, es: seq<Expr>): (r: RState)
    ensures r.scopes == st.scopes && Grows(st, r)
    ensures r.currentFunction == st.currentFunction && r.currentClass == st.currentClass
    ensures forall k :: |st.resolutions| <= k < |r.resolutions| ==> r.resolutions[k].depth < |st.scopes|
    decreases ExprsSize(es)
  {
    if es == [] then st else ResolveExprs(ResolveExpr(st, es[0]), es[1..])
  }

  // ---- statements ----

  /** `resolve(stmt)`: the `visit…Stmt` methods. A statement leaves the
      scope stack at the same depth with every enclosing scope untouched
      (a block, function or class pops what it pushed), and restores the
      function and class kinds. */
  function ResolveStmt(st: RState, s: Stmt): (r: RState)
    ensures SameLevel(st.scopes, r.scopes) && Grows(st, r)
    ensures r.currentFunction == st.currentFunction && r.currentClass == st.currentClass
    ensures s.Block? ==> r.scopes == st.scopes
    decreases StmtSize(s), 1
  {
    match s
    case Block(statements) => VisitBlock(st, statements)
    case Class(name, methods) => VisitClass(st, name, methods)
    case Expression(expr) => ResolveExpr(st, expr)
    case Function(decl) =>
      ResolveFunction(Define(Declare(st, decl.name), decl.name), decl, FunctionType.FUNCTION)
    case If(condition, thenBranch, elseBranch) =>
      var st1 := ResolveStmt(ResolveExpr(st, condition), thenBranch);
      if elseBranch.Some? then ResolveStmt(st1, elseBranch.value) else st1
    case Print(expr) => ResolveExpr(st, expr)
    case Return(keyword, value) => VisitReturn(st, keyword, value)
    case Var(name, initializer) => VisitVar(st, name, initializer)
    case While(condition, body) => ResolveStmt(ResolveExpr(st, condition), body)
  }

  /** `visitBlockStmt`. */
  function VisitBlock(st: RState, statements: seq<Option<Stmt>>): (r: RState)
    ensures r.scopes == st.scopes && Grows(st, r)
    ensures r.currentFunction == st.currentFunction && r.currentClass == st.currentClass
    decreases StmtsSize(statements) + 1, 0
  {
    EndScope(ResolveStmts(BeginScope(st), statements))
  }

  /** `visitClassStmt`: the class name is declared in the enclosing scope,
      the methods are resolved inside a scope binding `this`. */
  function VisitClass(st: RState, name: Token, methods: seq<FunDecl>): (r: RState)
    ensures SameLevel(st.scopes, r.scopes) && Grows(st, r)
    ensures r.currentFunction == st.currentFunction && r.currentClass == st.currentClass
    decreases FunsSize(methods) + 1, 0
  {
    var st1 := Define(Declare(st.(currentClass := ClassType.CLASS), name), name);
    var st2 := PutTop(BeginScope(st1), "this", true);
    var st3 := ResolveMethods(st2, methods);
    EndScope(st3).(currentClass := st.currentClass)
  }

  /** `visitReturnStmt`. */
  function VisitReturn(st: RState, keyword: Token, value: Option<Expr>): (r: RState)
    ensures r.scopes == st.scopes && Grows(st, r)
    ensures r.currentFunction == st.currentFunction && r.currentClass == st.currentClass
  {
    var st1 := if st.currentFunction == FunctionType.NONE
      then Report(st, keyword, "Can't return from top-level code.")
      else st;
    if value.Some? then
      var st2 := if st.currentFunction == FunctionType.INITIALIZER
        then Report(st1, keyword, "Can't return a value from an initializer.")
        else st1;
      ResolveExpr(st2, value.value)
    else st1
  }

  /** `visitVarStmt`: declared before the initializer is resolved, defined
      after. */
  function VisitVar(st: RState, name: Token, initializer: Option<Expr>): (r: RState)
    ensures SameLevel(st.scopes, r.scopes) && Grows(st, r)
    ensures r.currentFunction == st.currentFunction && r.currentClass == st.currentClass
  {
    var st1 := Declare(st, name);
    var st2 := if initializer.Some? then ResolveExpr(st1, initializer.value) else st1;
    Define(st2, name)
  }

  /** `resolve(statements)`: each statement in order, skipping the `null`s
      left by parse errors. */
  function ResolveStmts(st: RState, ss: seq<Option<Stmt>>): (r: RState)
    ensures SameLevel(st.scopes, r.scopes) && Grows(st, r)
    ensures r.currentFunction == st.currentFunction && r.currentClass == st.currentClass
    decreases StmtsSize(ss), 0
  {
    if ss == [] then st
    else
      var st1 := if ss[0].Some? then (assert ss[0].value < ss[0]; ResolveStmt(st, ss[0].value)) else st;
      ResolveStmts(st1, ss[1..])
  }

  /** The parameter loop of `resolveFunction`: declare and define each. */
  function DeclareParams(st: RState, params: seq<Token>): (r: RState)
    requires |st.scopes| > 0
    ensures SameLevel(st.scopes, r.scopes) && Grows(st, r)
    ensures r.resolutions == st.resolutions
    ensures r.currentFunction == st.currentFunction && r.currentClass == st.currentClass
    ensures forall n :: Ready(st.scopes, n) ==> Ready(r.scopes, n)
    ensures forall p :: p in params ==> Ready(r.scopes, p.lexeme)
    decreases |params|
  {
    if params == [] then st
    else
      var st1 := Define(Declare(st, params[0]), params[0]);
      var r := DeclareParams(st1, params[1..]);
      assert forall p :: p in params ==> p == params[0] || p in params[1..];
      r
  }

  /** `resolveFunction(function, type)`: a new scope holding the
      parameters, the body resolved with `type` as the current function
      kind; the scope stack and the enclosing kind are restored. */
  function ResolveFunction(st: RState, f: FunDecl, kind: FunctionType): (r: RState)
    ensures r.scopes == st.scopes && Grows(st, r)
    ensures r.currentFunction == st.currentFunction && r.currentClass == st.currentClass
    decreases FunSize(f), 0
  {
    var st1 := BeginScope(st.(currentFunction := kind));
    var st2 := DeclareParams(st1, f.params);
    var st3 := ResolveStmts(st2, f.body);
    EndScope(st3).(currentFunction := st.currentFunction)
  }

  /** The kind a class method is resolved as. */
  function MethodKind(m: FunDecl): (k: FunctionType)
    ensures k == FunctionType.INITIALIZER <==> m.name.lexeme == "init"
    ensures k == FunctionType.INITIALIZER || k == FunctionType.METHOD
  {
    if m.name.lexeme == "init" then FunctionType.INITIALIZER else FunctionType.METHOD
  }

  /** The method loop of `visitClassStmt`. */
  function ResolveMethods(st: RState, methods: seq<FunDecl>): (r: RState)
    ensures r.scopes == st.scopes && Grows(st, r)
    ensures r.currentFunction == st.currentFunction && r.currentClass == st.currentClass
    decreases FunsSize(methods), 0
  {
    if methods == [] then st
    else ResolveMethods(ResolveFunction(st, methods[0], MethodKind(methods[0])), methods[1..])
  }

  /** `Resolver(interpreter).resolve(statements)` on a whole program. */
  function Resolve(program: seq<Option<Stmt>>): (r: RState)
    ensures r.scopes == [] && r.currentFunction == FunctionType.NONE && r.currentClass == ClassType.NONE
  {
    ResolveStmts(Initial, program)
  }
}
