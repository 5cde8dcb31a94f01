/** The grammar of Parser.kt as functions of the token list and the cursor
    position. Each function returns where the cursor ends, the reports
    `Lox.error` has received so far (`log`), and either the parsed node or
    `Failed`, which stands for a thrown ParseError. The Parser class is
    proved to compute exactly these functions. */
module ParserSpec {
  import opened Wrappers
  import opened Tokens
  import opened Runtime
  import opened Ast

  /** The scanner's output always ends with an EOF token. */
  predicate WellFormed(ts: seq<Token>) {
    |ts| >= 1 && ts[|ts| - 1].kind == EOF
  }

  predicate ValidPos(ts: seq<Token>, pos: nat) {
    WellFormed(ts) && pos < |ts|
  }

  /** `isAtEnd`. */
  predicate AtEnd(ts: seq<Token>, pos: nat)
    requires pos < |ts|
  {
    ts[pos].kind == EOF
  }

  /** `check`: never true at EOF. */
  predicate Check(ts: seq<Token>, pos: nat, kind: TokenType)
    requires pos < |ts|
  {
    if AtEnd(ts, pos) then false else ts[pos].kind == kind
  }

  /** Whether `match(kinds...)` succeeds. */
  predicate Matches(ts: seq<Token>, pos: nat, kinds: seq<TokenType>)
    requires pos < |ts|
  {
    !AtEnd(ts, pos) && ts[pos].kind in kinds
  }

  /** The operator lists `equality`, `comparison`, `term`, `factor` and
      `unary` pass to `match`, in the order the source lists them. */
  const EqualityOps: seq<TokenType> := [BANG_EQUAL, EQUAL_EQUAL]
  const ComparisonOps: seq<TokenType> := [GREATER, GREATER_EQUAL, LESS, LESS_EQUAL]
  const TermOps: seq<TokenType> := [MINUS, PLUS]
  const FactorOps: seq<TokenType> := [SLASH, STAR]
  const UnaryOps: seq<TokenType> := [BANG, MINUS]

  /** The token kinds `primary` accepts as the start of an expression. */
  const PrimaryStarts: seq<TokenType> := [FALSE, TRUE, NIL, NUMBER, STRING, IDENTIFIER, LEFT_PAREN]

  /** The cursor after `advance`: one token further unless at EOF. */
  function Advance(ts: seq<Token>, pos: nat): (r: nat)
    requires ValidPos(ts, pos)
    ensures r < |ts|
    ensures AtEnd(ts, pos) ==> r == pos
    ensures !AtEnd(ts, pos) ==> r == pos + 1
  {
    if AtEnd(ts, pos) then pos else pos + 1
  }

  /** A thrown ParseError is `Failed`. */
  datatype Outcome<+T> = Parsed(value: T) | Failed

  datatype Step<+T> = Step(outcome: Outcome<T>, pos: nat, log: seq<Diag>)

  predicate Extends(log: seq<Diag>, longer: seq<Diag>) {
    log <= longer
  }

  /** What every parsing function guarantees: the cursor only moves forward
      and stays on a token, reports are only appended, a thrown ParseError
      has always been reported, and a success consumed at least one token. */
  predicate Sound<T>(ts: seq<Token>, pos: nat, log: seq<Diag>, r: Step<T>) {
    pos <= r.pos < |ts| && Extends(log, r.log) &&
    (r.outcome.Failed? ==> |r.log| > |log|) &&
    (r.outcome.Parsed? ==> r.pos > pos)
  }

  // ---- precedence bookkeeping used by the contracts ----

  /** The level of a binary operator, -1 for any other token. */
  function OperatorLevel(k: TokenType): int {
    if k in {BANG_EQUAL, EQUAL_EQUAL} then 0
    else if k in {GREATER, GREATER_EQUAL, LESS, LESS_EQUAL} then 1
    else if k in {MINUS, PLUS} then 2
    else if k in {SLASH, STAR} then 3
    else -1
  }

  /** How tightly the root of a tree binds: assignment 0, the binary levels
      1 to 4, unary 5, primaries 6. */
  function Tier(e: Expr): int {
    match e
    case Assign(_, _, _) => 0
    case Binary(_, op, _) => 1 + OperatorLevel(op.kind)
    case Unary(_, _) => 5
    case _ => 6
  }

  /** The shape of every tree the expression grammar builds: binary
      operators are the grammar's, a binary node's left operand binds at
      least as tightly and its right operand strictly more tightly (left
      associativity and precedence), and a unary operand is unary or
      primary. Only parentheses (Grouping) reset the precedence. */
  predicate WellNested(e: Expr) {
    match e
    case Binary(l, op, r) =>
      OperatorLevel(op.kind) >= 0 && Tier(l) >= Tier(e) && Tier(r) > Tier(e) &&
      WellNested(l) && WellNested(r)
    case Unary(op, r) => op.kind in {BANG, MINUS} && Tier(r) >= 5 && WellNested(r)
    case Grouping(inner) => WellNested(inner)
    case Assign(_, _, v) => WellNested(v)
    case Literal(_) => true
    case Variable(_, _) => true
    case _ => false
  }

  /** The value a literal token carries. */
  function LiteralValue(lit: Literal): (v: Value)
    ensures lit.NumberLit? ==> v == Num(lit.x)
    ensures lit.StringLit? ==> v == Str(lit.s)
    ensures lit.NoLiteral? ==> v == Nil
  {
    match lit
    case NoLiteral => Nil
    case NumberLit(x) => Num(x)
    case StringLit(s) => Str(s)
  }

  // ---- synchronisation ----

  /** The tokens before which `synchronize` stops. */
  predicate StartsStatement(k: TokenType) {
    k in {CLASS, FUN, VAR, FOR, IF, WHILE, PRINT, RETURN}
  }

  /** A position where panic-mode recovery may stop. */
  predicate Boundary(ts: seq<Token>, p: nat)
    requires 1 <= p < |ts|
  {
    AtEnd(ts, p) || ts[p - 1].kind == SEMICOLON || StartsStatement(ts[p].kind)
  }

  /** The `while` loop of `synchronize` from cursor `p`: it stops at the
      first boundary at or after `p`. */
  function SyncLoop(ts: seq<Token>, p: nat): (r: nat)
    requires ValidPos(ts, p) && p >= 1
    ensures p <= r < |ts| && Boundary(ts, r)
    ensures forall j :: p <= j < r ==> !Boundary(ts, j)
    decreases |ts| - p
  {
    if AtEnd(ts, p) then p
    else if ts[p - 1].kind == SEMICOLON then p
    else if StartsStatement(ts[p].kind) then p
    else SyncLoop(ts, p + 1)
  }

  /** `synchronize`: one `advance`, then skip to the next boundary. */
  function Synchronize(ts: seq<Token>, pos: nat): (r: nat)
    requires ValidPos(ts, pos) && (pos > 0 || !AtEnd(ts, pos))
    ensures pos <= r < |ts|
    ensures !AtEnd(ts, pos) ==> r > pos
  {
    SyncLoop(ts, Advance(ts, pos))
  }

  // ---- expressions ----

  /** `consume(kind, message)`: the expected token, or a reported error at
      the current token. */
  function Consume(ts: seq<Token>, pos: nat, log: seq<Diag>, kind: TokenType, message: string): (r: Step<Token>)
    requires ValidPos(ts, pos)
    ensures Sound(ts, pos, log, r)
    ensures r.outcome.Parsed? <==> Check(ts, pos, kind)
    ensures r.outcome.Parsed? ==> r == Step(Parsed(ts[pos]), pos + 1, log)
    ensures r.outcome.Failed? ==> r == Step(Failed, pos, log + [Diag(ts[pos], message)])
  {
    if Check(ts, pos, kind) then Step(Parsed(ts[pos]), pos + 1, log)
    else Step(Failed, pos, log + [Diag(ts[pos], message)])
  }

  function Expression(ts: seq<Token>, pos: nat, log: seq<Diag>): (r: Step<Expr>)
    requires ValidPos(ts, pos)
    ensures Sound(ts, pos, log, r)
    decreases |ts| - pos, 20
  {
    Assignment(ts, pos, log)
  }

  /** `assignment`: right-recursive; the result is an Assign node only when
      the left side parsed as a Variable, otherwise "Invalid assignment
      target." is reported without throwing and the left side is returned. */
  function Assignment(ts: seq<Token>, pos: nat, log: seq<Diag>): (r: Step<Expr>)
    requires ValidPos(ts, pos)
    ensures Sound(ts, pos, log, r)
    decreases |ts| - pos, 19
  {
    var left := Equality(ts, pos, log);
    if left.outcome.Failed? then left
    else if Check(ts, left.pos, EQUAL) then
      var equals := left.pos;
      var value := Assignment(ts, equals + 1, left.log);
      if value.outcome.Failed? then value
      else if left.outcome.value.Variable? then
        Step(Parsed(Assign(equals, left.outcome.value.name, value.outcome.value)), value.pos, value.log)
      else
        Step(left.outcome, value.pos, value.log + [Diag(ts[equals], "Invalid assignment target.")])
    else left
  }

  /** `equality`: comparisons joined by `!=` and `==`, associating to the left. */
  function Equality(ts: seq<Token>, pos: nat, log: seq<Diag>): (r: Step<Expr>)
    requires ValidPos(ts, pos)
    ensures Sound(ts, pos, log, r)
    decreases |ts| - pos, 17
  {
    var left := Comparison(ts, pos, log);
    if left.outcome.Failed? then left
    else EqualityLoop(ts, left.pos, left.log, left.outcome.value)
  }

  /** The `while` loop of `equality`: each round wraps the tree built so far
      as the left operand. */
  function EqualityLoop(ts: seq<Token>, pos: nat, log: seq<Diag>, left: Expr): (r: Step<Expr>)
    requires ValidPos(ts, pos)
    ensures pos <= r.pos < |ts| && Extends(log, r.log)
    ensures r.outcome.Failed? ==> |r.log| > |log|
    decreases |ts| - pos, 16
  {
    if Matches(ts, pos, EqualityOps) then
      var right := Comparison(ts, pos + 1, log);
      if right.outcome.Failed? then right
      else EqualityLoop(ts, right.pos, right.log, Binary(left, ts[pos], right.outcome.value))
    else Step(Parsed(left), pos, log)
  }

  /** `comparison`: terms joined by `>`, `>=`, `<` and `<=`, associating to the left. */
  function Comparison(ts: seq<Token>, pos: nat, log: seq<Diag>): (r: Step<Expr>)
    requires ValidPos(ts, pos)
    ensures Sound(ts, pos, log, r)
    decreases |ts| - pos, 14
  {
    var left := Term(ts, pos, log);
    if left.outcome.Failed? then left
    else ComparisonLoop(ts, left.pos, left.log, left.outcome.value)
  }

  /** The `while` loop of `comparison`: each round wraps the tree built so far
      as the left operand. */
  function ComparisonLoop(ts: seq<Token>, pos: nat, log: seq<Diag>, left: Expr): (r: Step<Expr>)
    requires ValidPos(ts, pos)
    ensures pos <= r.pos < |ts| && Extends(log, r.log)
    ensures r.outcome.Failed? ==> |r.log| > |log|
    decreases |ts| - pos, 13
  {
    if Matches(ts, pos, ComparisonOps) then
      var right := Term(ts, pos + 1, log);
      if right.outcome.Failed? then right
      else ComparisonLoop(ts, right.pos, right.log, Binary(left, ts[pos], right.outcome.value))
    else Step(Parsed(left), pos, log)
  }

  /** `term`: factors joined by `-` and `+`, associating to the left. */
  function Term(ts: seq<Token>, pos: nat, log: seq<Diag>): (r: Step<Expr>)
    requires ValidPos(ts, pos)
    ensures Sound(ts, pos, log, r)
    decreases |ts| - pos, 11
  {
    var left := Factor(ts, pos, log);
    if left.outcome.Failed? then left
    else TermLoop(ts, left.pos, left.log, left.outcome.value)
  }

  /** The `while` loop of `term`: each round wraps the tree built so far
      as the left operand. */
  function TermLoop(ts: seq<Token>, pos: nat, log: seq<Diag>, left: Expr): (r: Step<Expr>)
    requires ValidPos(ts, pos)
    ensures pos <= r.pos < |ts| && Extends(log, r.log)
    ensures r.outcome.Failed? ==> |r.log| > |log|
    decreases |ts| - pos, 10
  {
    if Matches(ts, pos, TermOps) then
      var right := Factor(ts, pos + 1, log);
      if right.outcome.Failed? then right
      else TermLoop(ts, right.pos, right.log, Binary(left, ts[pos], right.outcome.value))
    else Step(Parsed(left), pos, log)
  }

  /** `factor`: unary expressions joined by `/` and `*`, associating to the left. */
  function Factor(ts: seq<Token>, pos: nat, log: seq<Diag>): (r: Step<Expr>)
    requires ValidPos(ts, pos)
    ensures Sound(ts, pos, log, r)
    decreases |ts| - pos, 8
  {
    var left := Unary(ts, pos, log);
    if left.outcome.Failed? then left
    else FactorLoop(ts, left.pos, left.log, left.outcome.value)
  }

  /** The `while` loop of `factor`: each round wraps the tree built so far
      as the left operand. */
  function FactorLoop(ts: seq<Token>, pos: nat, log: seq<Diag>, left: Expr): (r: Step<Expr>)
    requires ValidPos(ts, pos)
    ensures pos <= r.pos < |ts| && Extends(log, r.log)
    ensures r.outcome.Failed? ==> |r.log| > |log|
    decreases |ts| - pos, 7
  {
    if Matches(ts, pos, FactorOps) then
      var right := Unary(ts, pos + 1, log);
      if right.outcome.Failed? then right
      else FactorLoop(ts, right.pos, right.log, Binary(left, ts[pos], right.outcome.value))
    else Step(Parsed(left), pos, log)
  }

  /** `unary`: `!` and `-` nest to the right. */
  function Unary(ts: seq<Token>, pos: nat, log: seq<Diag>): (r: Step<Expr>)
    requires ValidPos(ts, pos)
    ensures Sound(ts, pos, log, r)
    decreases |ts| - pos, 5
  {
    if Matches(ts, pos, UnaryOps) then
      var right := Unary(ts, pos + 1, log);
      if right.outcome.Failed? then right
      else Step(Parsed(Expr.Unary(ts[pos], right.outcome.value)), right.pos, right.log)
    else Primary(ts, pos, log)
  }

  /** `primary`: a literal, a variable, or a parenthesised expression;
      anything else throws "Expceted expression" (sic) at the current
      token. */
  function Primary(ts: seq<Token>, pos: nat, log: seq<Diag>): (r: Step<Expr>)
    requires ValidPos(ts, pos)
    ensures Sound(ts, pos, log, r)
    ensures !Matches(ts, pos, PrimaryStarts) ==> r == Step(Failed, pos, log + [Diag(ts[pos], "Expceted expression")])
    ensures Matches(ts, pos, PrimaryStarts) && !Check(ts, pos, LEFT_PAREN) ==>
      r.outcome.Parsed? && r.pos == pos + 1 && r.log == log
    ensures Check(ts, pos, LEFT_PAREN) ==>
      var inner := Expression(ts, pos + 1, log);
      (r.outcome.Parsed? <==> inner.outcome.Parsed? && Check(ts, inner.pos, RIGHT_PAREN)) &&
      (inner.outcome.Parsed? && !Check(ts, inner.pos, RIGHT_PAREN) ==>
         r == Step(Failed, inner.pos, inner.log + [Diag(ts[inner.pos], "Expected ')' after expression")]))
    decreases |ts| - pos, 4
  {
    if Matches(ts, pos, [FALSE]) then Step(Parsed(Literal(Bool(false))), pos + 1, log)
    else if Matches(ts, pos, [TRUE]) then Step(Parsed(Literal(Bool(true))), pos + 1, log)
    else if Matches(ts, pos, [NIL]) then Step(Parsed(Literal(Value.Nil)), pos + 1, log)
    else if Matches(ts, pos, [NUMBER, STRING]) then Step(Parsed(Literal(LiteralValue(ts[pos].literal))), pos + 1, log)
    else if Matches(ts, pos, [IDENTIFIER]) then Step(Parsed(Variable(pos, ts[pos])), pos + 1, log)
    else if Matches(ts, pos, [LEFT_PAREN]) then
      var inner := Expression(ts, pos + 1, log);
      if inner.outcome.Failed? then inner
      else
        var close := Consume(ts, inner.pos, inner.log, RIGHT_PAREN, "Expected ')' after expression");
        if close.outcome.Failed? then Step(Failed, close.pos, close.log)
        else Step(Parsed(Grouping(inner.outcome.value)), close.pos, close.log)
    else Step(Failed, pos, log + [Diag(ts[pos], "Expceted expression")])
  }

  // ---- statements ----

  /** `expressionStatement`. */
  function ExpressionStatement(ts: seq<Token>, pos: nat, log: seq<Diag>): (r: Step<Stmt>)
    requires ValidPos(ts, pos)
    ensures Sound(ts, pos, log, r)
    decreases |ts| - pos, 21
  {
    var e := Expression(ts, pos, log);
    if e.outcome.Failed? then Step(Failed, e.pos, e.log)
    else
      var semi := Consume(ts, e.pos, e.log, SEMICOLON, "Expected ';' after expression.");
      if semi.outcome.Failed? then Step(Failed, semi.pos, semi.log)
      else Step(Parsed(Stmt.Expression(e.outcome.value)), semi.pos, semi.log)
  }

  /** `printStatement`, entered after the PRINT keyword. */
  function PrintStatement(ts: seq<Token>, pos: nat, log: seq<Diag>): (r: Step<Stmt>)
    requires ValidPos(ts, pos)
    ensures Sound(ts, pos, log, r)
    decreases |ts| - pos, 21
  {
    var e := Expression(ts, pos, log);
    if e.outcome.Failed? then Step(Failed, e.pos, e.log)
    else
      var semi := Consume(ts, e.pos, e.log, SEMICOLON, "Expected ';' after value.");
      if semi.outcome.Failed? then Step(Failed, semi.pos, semi.log)
      else Step(Parsed(Print(e.outcome.value)), semi.pos, semi.log)
  }

  /** `varDeclaration`, entered after the VAR keyword. */
  function VarDeclaration(ts: seq<Token>, pos: nat, log: seq<Diag>): (r: Step<Stmt>)
    requires ValidPos(ts, pos)
    ensures Sound(ts, pos, log, r)
    decreases |ts| - pos, 21
  {
    var name := Consume(ts, pos, log, IDENTIFIER, "Expected variable name.");
    if name.outcome.Failed? then Step(Failed, name.pos, name.log)
    else if Check(ts, name.pos, EQUAL) then
      var init := Expression(ts, name.pos + 1, name.log);
      if init.outcome.Failed? then Step(Failed, init.pos, init.log)
      else
        var semi := Consume(ts, init.pos, init.log, SEMICOLON, "Expected ';' after variable declaration.");
        if semi.outcome.Failed? then Step(Failed, semi.pos, semi.log)
        else Step(Parsed(Var(name.outcome.value, Some(init.outcome.value))), semi.pos, semi.log)
    else
      var semi := Consume(ts, name.pos, name.log, SEMICOLON, "Expected ';' after variable declaration.");
      if semi.outcome.Failed? then Step(Failed, semi.pos, semi.log)
      else Step(Parsed(Var(name.outcome.value, None)), semi.pos, semi.log)
  }

  /** `statement`. */
  function Statement(ts: seq<Token>, pos: nat, log: seq<Diag>): (r: Step<Stmt>)
    requires ValidPos(ts, pos)
    ensures Sound(ts, pos, log, r)
    decreases |ts| - pos, 22
  {
    if Matches(ts, pos, [PRINT]) then PrintStatement(ts, pos + 1, log)
    else if Matches(ts, pos, [LEFT_BRACE]) then
      var b := Block(ts, pos + 1, log);
      if b.outcome.Failed? then Step(Failed, b.pos, b.log)
      else Step(Parsed(Stmt.Block(b.outcome.value)), b.pos, b.log)
    else ExpressionStatement(ts, pos, log)
  }

  /** `block`, entered after `{`: declarations up to `}` or EOF, then `}`. */
  function Block(ts: seq<Token>, pos: nat, log: seq<Diag>): (r: Step<seq<Option<Stmt>>>)
    requires ValidPos(ts, pos)
    ensures Sound(ts, pos, log, r)
    decreases |ts| - pos, 25
  {
    BlockLoop(ts, pos, log, [])
  }

  function BlockLoop(ts: seq<Token>, pos: nat, log: seq<Diag>, acc: seq<Option<Stmt>>): (r: Step<seq<Option<Stmt>>>)
    requires ValidPos(ts, pos)
    ensures Sound(ts, pos, log, r)
    ensures r.outcome.Parsed? ==> |r.outcome.value| >= |acc| && r.outcome.value[..|acc|] == acc
    decreases |ts| - pos, 24
  {
    if !Check(ts, pos, RIGHT_BRACE) && !AtEnd(ts, pos) then
      var d := Declaration(ts, pos, log);
      BlockLoop(ts, d.pos, d.log, acc + [d.outcome.value])
    else
      var close := Consume(ts, pos, log, RIGHT_BRACE, "Expected '}' after block.");
      if close.outcome.Failed? then Step(Failed, close.pos, close.log)
      else Step(Parsed(acc), close.pos, close.log)
  }

  /** `declaration`: a statement, or `None` after a ParseError, with the
      cursor moved on by `synchronize`. It never throws and, started before
      EOF, always consumes a token. */
  function Declaration(ts: seq<Token>, pos: nat, log: seq<Diag>): (r: Step<Option<Stmt>>)
    requires ValidPos(ts, pos) && !AtEnd(ts, pos)
    ensures Sound(ts, pos, log, r) && r.outcome.Parsed?
    ensures r.outcome.value.None? ==> |r.log| > |log|
    ensures var s := if Matches(ts, pos, [VAR]) then VarDeclaration(ts, pos + 1, log) else Statement(ts, pos, log);
      (r.outcome.value.None? <==> s.outcome.Failed?) && r.log == s.log &&
      (s.outcome.Failed? ==> r.pos == Synchronize(ts, s.pos)) &&
      (s.outcome.Parsed? ==> r.outcome.value == Some(s.outcome.value) && r.pos == s.pos)
    decreases |ts| - pos, 23
  {
    var s := if Matches(ts, pos, [VAR]) then VarDeclaration(ts, pos + 1, log) else Statement(ts, pos, log);
    if s.outcome.Failed? then Step(Parsed(None), Synchronize(ts, s.pos), s.log)
    else Step(Parsed(Some(s.outcome.value)), s.pos, s.log)
  }

  datatype Program = Program(statements: seq<Option<Stmt>>, log: seq<Diag>)

  /** `parse`: declarations until EOF. */
  function Parse(ts: seq<Token>): (r: Program)
    requires WellFormed(ts)
  {
    ParseLoop(ts, 0, [], [])
  }

  function ParseLoop(ts: seq<Token>, pos: nat, acc: seq<Option<Stmt>>, log: seq<Diag>): (r: Program)
    requires ValidPos(ts, pos)
    decreases |ts| - pos
  {
    if AtEnd(ts, pos) then Program(acc, log)
    else
      var d := Declaration(ts, pos, log);
      ParseLoop(ts, d.pos, acc + [d.outcome.value], d.log)
  }
}
