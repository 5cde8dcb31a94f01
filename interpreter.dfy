/** Value semantics of Interpreter.kt: truthiness, equality, the operand
    checks, evaluation of the four node kinds of Expr.kt and `stringify`.
    Thrown RuntimeErrors are `Err` results. Numbers are real numbers; IEEE
    rounding, infinities and NaN are not modelled. */
module Interpreter {
  import opened Wrappers
  import opened Tokens
  import opened Runtime
  import opened Ast

  /** `isTruthy`: only nil and false are falsy. */
  predicate IsTruthy(v: Value)
    ensures IsTruthy(v) <==> !(v == Nil || v == Bool(false))
  {
    if v.Nil? then false
    else if v.Bool? then v.b
    else true
  }

  /** `isEqual`: two nils are equal, nil never equals a non-nil value, and
      otherwise the host equality decides (no coercion between kinds). */
  predicate IsEqual(a: Value, b: Value)
    ensures a.Nil? && b.Nil? ==> IsEqual(a, b)
    ensures a.Nil? != b.Nil? ==> !IsEqual(a, b)
    ensures IsEqual(a, b) <==> a == b
  {
    if a.Nil? && b.Nil? then true
    else if a.Nil? then false
    else a == b
  }

  /** `checkNumberOperand`: None when the operand is a number, otherwise the
      error it throws. */
  function CheckNumberOperand(operator: Token, operand: Value): (r: Option<RuntimeError>)
    ensures r.None? <==> operand.Num?
    ensures r.Some? ==> r.value == RuntimeError(operator, "Operand must be a number.")
  {
    if operand.Num? then None else Some(RuntimeError(operator, "Operand must be a number."))
  }

  /** `checkNumberOperands`: None when both operands are numbers. */
  function CheckNumberOperands(operator: Token, left: Value, right: Value): (r: Option<RuntimeError>)
    ensures r.None? <==> left.Num? && right.Num?
    ensures r.Some? ==> r.value == RuntimeError(operator, "Operands must be a number.")
  {
    if left.Num? && right.Num? then None else Some(RuntimeError(operator, "Operands must be a number."))
  }

  /** The operators whose operands `visitBinary` checks for numbers first. */
  predicate IsNumericOperator(t: TokenType) {
    t in {MINUS, SLASH, STAR, GREATER, GREATER_EQUAL, LESS, LESS_EQUAL}
  }

  /** Real division; the model returns 0 where the host would produce an
      infinity or NaN. */
  function Quotient(a: real, b: real): real {
    if b == 0.0 then 0.0 else a / b
  }

  /** The `when` of `visitUnary` applied to an evaluated operand. */
  function UnaryOp(operator: Token, right: Value): (r: Result<Value, RuntimeError>)
    ensures operator.kind == BANG ==> r == Ok(Bool(right == Nil || right == Bool(false)))
    ensures operator.kind == MINUS && right.Num? ==> r == Ok(Num(-right.x))
    ensures operator.kind == MINUS && !right.Num? ==> r == Err(RuntimeError(operator, "Operand must be a number."))
    ensures operator.kind !in {BANG, MINUS} ==> r == Ok(Nil)
  {
    if operator.kind == BANG then Ok(Bool(!IsTruthy(right)))
    else if operator.kind == MINUS then
      var failure := CheckNumberOperand(operator, right);
      if failure.Some? then Err(failure.value) else Ok(Num(-right.x))
    else Ok(Nil)
  }

  /** The `when` of `visitBinary` applied to two evaluated operands. */
  function BinaryOp(operator: Token, left: Value, right: Value): (r: Result<Value, RuntimeError>)
    // the numeric operators fail exactly when an operand is not a number
    ensures IsNumericOperator(operator.kind) ==>
              (r.Err? <==> !(left.Num? && right.Num?))
    ensures IsNumericOperator(operator.kind) && r.Err? ==>
              r.error == RuntimeError(operator, "Operands must be a number.")
    ensures IsNumericOperator(operator.kind) && r.Ok? ==>
              (operator.kind in {MINUS, SLASH, STAR} ==> r.value.Num?) &&
              (operator.kind in {GREATER, GREATER_EQUAL, LESS, LESS_EQUAL} ==> r.value.Bool?)
    // `+`: sum, concatenation, or the mixed-operand error
    ensures operator.kind == PLUS && left.Num? && right.Num? ==> r == Ok(Num(left.x + right.x))
    ensures operator.kind == PLUS && left.Str? && right.Str? ==> r == Ok(Str(left.s + right.s))
    ensures operator.kind == PLUS && !(left.Num? && right.Num?) && !(left.Str? && right.Str?) ==>
              r == Err(RuntimeError(operator, "Operands must be two numbers or two strings."))
    // equality never fails and compares without coercion
    ensures operator.kind == EQUAL_EQUAL ==> r == Ok(Bool(left == right))
    ensures operator.kind == BANG_EQUAL ==> r == Ok(Bool(left != right))
    ensures !IsNumericOperator(operator.kind) && operator.kind !in {PLUS, EQUAL_EQUAL, BANG_EQUAL} ==> r == Ok(Nil)
    // on two numbers, the arithmetic and comparison operators compute
    ensures left.Num? && right.Num? ==>
              (operator.kind == MINUS ==> r == Ok(Num(left.x - right.x))) &&
              (operator.kind == SLASH ==> r == Ok(Num(Quotient(left.x, right.x)))) &&
              (operator.kind == STAR ==> r == Ok(Num(left.x * right.x))) &&
              (operator.kind == GREATER ==> r == Ok(Bool(left.x > right.x))) &&
              (operator.kind == GREATER_EQUAL ==> r == Ok(Bool(left.x >= right.x))) &&
              (operator.kind == LESS ==> r == Ok(Bool(left.x < right.x))) &&
              (operator.kind == LESS_EQUAL ==> r == Ok(Bool(left.x <= right.x)))
  {
    var failure := if IsNumericOperator(operator.kind) then CheckNumberOperands(operator, left, right) else None;
    if failure.Some? then Err(failure.value)
    else
      var k := operator.kind;
      if k == PLUS then
        if left.Num? && right.Num? then Ok(Num(left.x + right.x))
        else if left.Str? && right.Str? then Ok(Str(left.s + right.s))
        else Err(RuntimeError(operator, "Operands must be two numbers or two strings."))
      else if k == MINUS then Ok(Num(left.x - right.x))
      else if k == SLASH then Ok(Num(Quotient(left.x, right.x)))
      else if k == STAR then Ok(Num(left.x * right.x))
      else if k == GREATER then Ok(Bool(left.x > right.x))
      else if k == GREATER_EQUAL then Ok(Bool(left.x >= right.x))
      else if k == LESS then Ok(Bool(left.x < right.x))
      else if k == LESS_EQUAL then Ok(Bool(left.x <= right.x))
      else if k == BANG_EQUAL then Ok(Bool(!IsEqual(left, right)))
      else if k == EQUAL_EQUAL then Ok(Bool(IsEqual(left, right)))
      else Ok(Nil)
  }

  /** The only RuntimeErrors evaluation can throw: the operand checks of
      `visitUnary` and `visitBinary`. */
  predicate IsOperandError(err: RuntimeError) {
    err.message in {"Operand must be a number.", "Operands must be a number.",
                    "Operands must be two numbers or two strings."}
  }

  /** `evaluate`: the visitor dispatch over the four node kinds of Expr.kt.
      A literal is its own value, and every error is an operand error. */
  function Evaluate(e: Expr): (r: Result<Value, RuntimeError>)
    requires IsBasic(e)
    ensures e.Literal? ==> r == Ok(e.value)
    ensures r.Err? ==> IsOperandError(r.error)
    decreases e, 1
  {
    match e
    case Literal(_) => VisitLiteral(e)
    case Grouping(_) => VisitGrouping(e)
    case Unary(_, _) => VisitUnary(e)
    case Binary(_, _, _) => VisitBinary(e)
  }

  function VisitLiteral(e: Expr): (r: Result<Value, RuntimeError>)
    requires e.Literal?
    ensures r == Ok(e.value)
    decreases e, 0
  {
    Ok(e.value)
  }

  function VisitGrouping(e: Expr): (r: Result<Value, RuntimeError>)
    requires e.Grouping? && IsBasic(e)
    ensures r == Evaluate(e.expr)
    decreases e, 0
  {
    Evaluate(e.expr)
  }

  /** `visitUnary`: evaluate the operand, then apply the operator. */
  function VisitUnary(e: Expr): (r: Result<Value, RuntimeError>)
    requires e.Unary? && IsBasic(e)
    ensures Evaluate(e.right).Err? ==> r == Evaluate(e.right)
    ensures Evaluate(e.right).Ok? ==> r == UnaryOp(e.operator, Evaluate(e.right).value)
    decreases e, 0
  {
    var right := Evaluate(e.right);
    if right.Err? then right else UnaryOp(e.operator, right.value)
  }

  /** `visitBinary`: the left operand, then the right one, are evaluated
      before any operand check; the first error wins. */
  function VisitBinary(e: Expr): (r: Result<Value, RuntimeError>)
    requires e.Binary? && IsBasic(e)
    ensures Evaluate(e.left).Err? ==> r == Evaluate(e.left)
    ensures Evaluate(e.left).Ok? && Evaluate(e.right).Err? ==> r == Evaluate(e.right)
    ensures Evaluate(e.left).Ok? && Evaluate(e.right).Ok? ==>
              r == BinaryOp(e.operator, Evaluate(e.left).value, Evaluate(e.right).value)
    decreases e, 0
  {
    var left := Evaluate(e.left);
    if left.Err? then left
    else
      var right := Evaluate(e.right);
      if right.Err? then right
      else BinaryOp(e.operator, left.value, right.value)
  }

  predicate EndsWith(s: string, suffix: string) {
    |suffix| <= |s| && s[|s| - |suffix|..] == suffix
  }

  /** `stringify`: nil is "nil"; a number's text loses a trailing ".0";
      every other value is its host text. */
  function Stringify(v: Value, render: Render): (s: string)
    ensures v.Nil? ==> s == "nil"
    ensures v.Num? && EndsWith(render.number(v.x), ".0") ==> s + ".0" == render.number(v.x)
    ensures v.Num? && !EndsWith(render.number(v.x), ".0") ==> s == render.number(v.x)
    ensures !v.Nil? && !v.Num? ==> s == HostText(v, render)
  {
    if v.Nil? then "nil"
    else if v.Num? then
      var text := render.number(v.x);
      if EndsWith(text, ".0") then text[..|text| - 2] else text
    else HostText(v, render)
  }
}
