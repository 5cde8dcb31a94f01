/** AstPrinter.kt: the parenthesised rendering of the four node kinds of
    Expr.kt. The visit functions are pure; `Parenthesize` is the
    StringBuilder loop, proved to build the text `Parenthesized` describes. */
module AstPrinter {
  import opened Tokens
  import opened Runtime
  import opened Ast

  /** One " " + rendering per part, in order. */
  function SpaceJoined(parts: seq<string>): string {
    if parts == [] then "" else " " + parts[0] + SpaceJoined(parts[1..])
  }

  /** What `parenthesize(name, ...)` returns, given the children's renderings. */
  function Parenthesized(name: string, parts: seq<string>): string {
    "(" + name + SpaceJoined(parts) + ")"
  }

  /** `print` / `accept(AstPrinter)`: every node but a literal is printed
      inside one pair of parentheses. */
  function Print(e: Expr, render: Render): (s: string)
    requires IsBasic(e)
    ensures e.Literal? ==> s == (if e.value.Nil? then "nil" else HostText(e.value, render))
    ensures !e.Literal? ==> |s| >= 2 && s[0] == '(' && s[|s| - 1] == ')'
    decreases e, 1
  {
    match e
    case Binary(_, _, _) => VisitBinary(e, render)
    case Grouping(_) => VisitGrouping(e, render)
    case Literal(_) => VisitLiteral(e, render)
    case Unary(_, _) => VisitUnary(e, render)
  }

  /** A binary node prints as "(" operator " " left " " right ")". */
  function VisitBinary(e: Expr, render: Render): (s: string)
    requires e.Binary? && IsBasic(e)
    ensures s == "(" + e.operator.lexeme + " " + Print(e.left, render) + " " + Print(e.right, render) + ")"
    decreases e, 0
  {
    SpaceJoinedTwo(Print(e.left, render), Print(e.right, render));
    Parenthesized(e.operator.lexeme, [Print(e.left, render), Print(e.right, render)])
  }

  /** A grouping prints as "(group " inner ")". */
  function VisitGrouping(e: Expr, render: Render): (s: string)
    requires e.Grouping? && IsBasic(e)
    ensures s == "(group " + Print(e.expr, render) + ")"
    decreases e, 0
  {
    SpaceJoinedOne(Print(e.expr, render));
    Parenthesized("group", [Print(e.expr, render)])
  }

  /** A nil literal prints as "nil", any other as its host text. */
  function VisitLiteral(e: Expr, render: Render): (s: string)
    requires e.Literal?
    ensures e.value.Nil? ==> s == "nil"
    ensures !e.value.Nil? ==> s == HostText(e.value, render)
    decreases e, 0
  {
    if e.value.Nil? then "nil" else HostText(e.value, render)
  }

  /** A unary node prints as "(" operator " " operand ")". */
  function VisitUnary(e: Expr, render: Render): (s: string)
    requires e.Unary? && IsBasic(e)
    ensures s == "(" + e.operator.lexeme + " " + Print(e.right, render) + ")"
    decreases e, 0
  {
    SpaceJoinedOne(Print(e.right, render));
    Parenthesized(e.operator.lexeme, [Print(e.right, render)])
  }

  /** The renderings of a list of children, in order. */
  function Renderings(exprs: seq<Expr>, render: Render): (parts: seq<string>)
    requires forall i :: 0 <= i < |exprs| ==> IsBasic(exprs[i])
    ensures |parts| == |exprs|
    ensures forall i :: 0 <= i < |exprs| ==> parts[i] == Print(exprs[i], render)
  {
    if exprs == [] then [] else [Print(exprs[0], render)] + Renderings(exprs[1..], render)
  }

  lemma {:induction false} SpaceJoinedAppend(parts: seq<string>, p: string)
    ensures SpaceJoined(parts + [p]) == SpaceJoined(parts) + " " + p
  {
    if parts == [] {
      assert [p][1..] == [];
    } else {
      assert (parts + [p])[1..] == parts[1..] + [p];
      SpaceJoinedAppend(parts[1..], p);
    }
  }

  /** One turn of the `parenthesize` loop appends the next rendering. */
  lemma ParenthesizeStep(name: string, parts: seq<string>, i: nat)
    requires i < |parts|
    ensures "(" + name + SpaceJoined(parts[..i]) + " " + parts[i] == "(" + name + SpaceJoined(parts[..i + 1])
  {
    SpaceJoinedAppend(parts[..i], parts[i]);
    assert parts[..i + 1] == parts[..i] + [parts[i]];
  }

  /** `parenthesize`: "(" and the name, then " " and each child's rendering
      appended in order, then ")". */
  method Parenthesize(name: string, exprs: seq<Expr>, render: Render) returns (s: string)
    requires forall i :: 0 <= i < |exprs| ==> IsBasic(exprs[i])
    ensures s == Parenthesized(name, Renderings(exprs, render))
  {
    var sb := "(" + name;
    ghost var parts := Renderings(exprs, render);
    for i := 0 to |exprs|
      invariant sb == "(" + name + SpaceJoined(parts[..i])
    {
      var part := Print(exprs[i], render);
      ParenthesizeStep(name, parts, i);
      sb := sb + " " + part;
    }
    assert parts[..|exprs|] == parts;
    s := sb + ")";
  }

  /** Whatever the children, the output starts with "(" and the name, ends
      with ")", and holds one space-prefixed rendering per child. */
  lemma {:induction false} ParenthesizedShape(name: string, parts: seq<string>)
    ensures var s := Parenthesized(name, parts);
      |s| >= |name| + 2 && s[..|name| + 1] == "(" + name && s[|s| - 1] == ')'
    ensures |Parenthesized(name, parts)| == |name| + 2 + |parts| + TotalLength(parts)
  {
    SpaceJoinedLength(parts);
    var s := Parenthesized(name, parts);
    assert s == ("(" + name) + SpaceJoined(parts) + ")";
  }

  function TotalLength(parts: seq<string>): nat {
    if parts == [] then 0 else |parts[0]| + TotalLength(parts[1..])
  }

  lemma {:induction false} SpaceJoinedLength(parts: seq<string>)
    ensures |SpaceJoined(parts)| == |parts| + TotalLength(parts)
  {
    if parts != [] {
      SpaceJoinedLength(parts[1..]);
    }
  }

  lemma SpaceJoinedOne(a: string)
    ensures SpaceJoined([a]) == " " + a
  {
    assert [a][1..] == [];
  }

  lemma SpaceJoinedTwo(a: string, b: string)
    ensures SpaceJoined([a, b]) == " " + a + " " + b
  {
    assert [a, b][1..] == [b];
    SpaceJoinedOne(b);
  }
}
