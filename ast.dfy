/** The syntax tree. Expr.kt declares four node kinds (Binary, Grouping,
    Literal, Unary); the parser and the resolver also build and visit
    Variable, Assign, Logical, Call, Get, Set and This nodes and the
    statement nodes, which this one closed datatype adds. Kotlin nodes are
    immutable objects; the nodes the resolver records a distance for
    (Variable, Assign, This) carry an `id` that stands for their identity. */
module Ast {
  import opened Wrappers
  import opened Tokens
  import opened Runtime

  datatype Expr =
    | Binary(left: Expr, operator: Token, right: Expr)
    | Grouping(expr: Expr)
    | Literal(value: Value)
    | Unary(operator: Token, right: Expr)
    | Variable(id: nat, name: Token)
    | Assign(id: nat, name: Token, rvalue: Expr)
    | Logical(left: Expr, operator: Token, right: Expr)
    | Call(callee: Expr, paren: Token, arguments: seq<Expr>)
    | Get(obj: Expr, name: Token)
    | Set(obj: Expr, name: Token, rvalue: Expr)
    | This(id: nat, keyword: Token)

  /** A function declaration; also the form of a class method. A statement
      that failed to parse is `None` (Kotlin's `null`). */
  datatype FunDecl = FunDecl(name: Token, params: seq<Token>, body: seq<Option<Stmt>>)

  datatype Stmt =
    | Expression(expr: Expr)
    | Print(expr: Expr)
    | Var(name: Token, initializer: Option<Expr>)
    | Block(statements: seq<Option<Stmt>>)
    | If(condition: Expr, thenBranch: Stmt, elseBranch: Option<Stmt>)
    | While(condition: Expr, body: Stmt)
    | Function(decl: FunDecl)
    | Return(keyword: Token, value: Option<Expr>)
    | Class(name: Token, methods: seq<FunDecl>)

  /** True of the trees Expr.kt can express: only its four node kinds. */
  predicate IsBasic(e: Expr) {
    match e
    case Binary(l, _, r) => IsBasic(l) && IsBasic(r)
    case Grouping(inner) => IsBasic(inner)
    case Literal(_) => true
    case Unary(_, r) => IsBasic(r)
    case _ => false
  }

  // Sizes used as termination measures by the passes over the tree.

  function ExprSize(e: Expr): (n: nat)
    ensures n >= 1
  {
    match e
    case Binary(l, _, r) => 1 + ExprSize(l) + ExprSize(r)
    case Grouping(inner) => 1 + ExprSize(inner)
    case Literal(_) => 1
    case Unary(_, r) => 1 + ExprSize(r)
    case Variable(_, _) => 1
    case Assign(_, _, v) => 1 + ExprSize(v)
    case Logical(l, _, r) => 1 + ExprSize(l) + ExprSize(r)
    case Call(c, _, args) => 1 + ExprSize(c) + ExprsSize(args)
    case Get(o, _) => 1 + ExprSize(o)
    case Set(o, _, v) => 1 + ExprSize(o) + ExprSize(v)
    case This(_, _) => 1
  }

  function ExprsSize(es: seq<Expr>): nat {
    if es == [] then 0 else 1 + ExprSize(es[0]) + ExprsSize(es[1..])
  }

  function OptExprSize(e: Option<Expr>): nat {
    if e.Some? then ExprSize(e.value) else 0
  }

  function StmtSize(s: Stmt): (n: nat)
    ensures n >= 1
  {
    match s
    case Expression(e) => 1 + ExprSize(e)
    case Print(e) => 1 + ExprSize(e)
    case Var(_, init) => 1 + OptExprSize(init)
    case Block(ss) => 1 + StmtsSize(ss)
    case If(c, t, e) => 1 + ExprSize(c) + StmtSize(t) + (if e.Some? then StmtSize(e.value) else 0)
    case While(c, b) => 1 + ExprSize(c) + StmtSize(b)
    case Function(f) => 1 + FunSize(f)
    case Return(_, v) => 1 + OptExprSize(v)
    case Class(_, ms) => 1 + FunsSize(ms)
  }

  function StmtsSize(ss: seq<Option<Stmt>>): nat {
    if ss == [] then 0
    else 1 + (if ss[0].Some? then (assert ss[0].value < ss[0]; StmtSize(ss[0].value)) else 0)
         + StmtsSize(ss[1..])
  }

  function FunSize(f: FunDecl): (n: nat)
    ensures n >= 1
  {
    1 + StmtsSize(f.body)
  }

  function FunsSize(fs: seq<FunDecl>): nat {
    if fs == [] then 0 else 1 + FunSize(fs[0]) + FunsSize(fs[1..])
  }

  /** Every element of a list is smaller than the list, so a loop over the
      list may recurse into its elements. */
  lemma {:induction false} ExprsSizeElement(es: seq<Expr>, i: nat)
    requires i < |es|
    ensures ExprSize(es[i]) < ExprsSize(es)
    decreases i
  {
    if i > 0 {
      ExprsSizeElement(es[1..], i - 1);
      assert es[1..][i - 1] == es[i];
    }
  }

  lemma {:induction false} StmtsSizeElement(ss: seq<Option<Stmt>>, i: nat)
    requires i < |ss| && ss[i].Some?
    ensures StmtSize(ss[i].value) < StmtsSize(ss)
    decreases i
  {
    if i > 0 {
      StmtsSizeElement(ss[1..], i - 1);
      assert ss[1..][i - 1] == ss[i];
    }
  }

  lemma {:induction false} FunsSizeElement(fs: seq<FunDecl>, i: nat)
    requires i < |fs|
    ensures FunSize(fs[i]) < FunsSize(fs)
    decreases i
  {
    if i > 0 {
      FunsSizeElement(fs[1..], i - 1);
      assert fs[1..][i - 1] == fs[i];
    }
  }
}
