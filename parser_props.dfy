/** Properties of the parser's grammar (ParserSpec), and so of the Parser
    class, which computes exactly those functions. */
module ParserProperties {
  import opened Wrappers
  import opened Tokens
  import opened Runtime
  import Ast
  import opened ParserSpec

  // ---- precedence and associativity: every parsed tree is WellNested ----

  lemma {:induction false} ExpressionNested(ts: seq<Token>, pos: nat, log: seq<Diag>)
    requires ValidPos(ts, pos)
    ensures Expression(ts, pos, log).outcome.Parsed? ==> WellNested(Expression(ts, pos, log).outcome.value)
    decreases |ts| - pos, 20
  {
    AssignmentNested(ts, pos, log);
  }

  lemma {:induction false} AssignmentNested(ts: seq<Token>, pos: nat, log: seq<Diag>)
    requires ValidPos(ts, pos)
    ensures Assignment(ts, pos, log).outcome.Parsed? ==> WellNested(Assignment(ts, pos, log).outcome.value)
    decreases |ts| - pos, 19
  {
    EqualityNested(ts, pos, log);
    var left := Equality(ts, pos, log);
    if left.outcome.Parsed? && Check(ts, left.pos, EQUAL) {
      AssignmentNested(ts, left.pos + 1, left.log);
    }
  }

  lemma {:induction false} EqualityNested(ts: seq<Token>, pos: nat, log: seq<Diag>)
    requires ValidPos(ts, pos)
    ensures var r := Equality(ts, pos, log);
      r.outcome.Parsed? ==> WellNested(r.outcome.value) && Tier(r.outcome.value) >= 1
    decreases |ts| - pos, 17
  {
    ComparisonNested(ts, pos, log);
    var left := Comparison(ts, pos, log);
    if left.outcome.Parsed? {
      EqualityLoopNested(ts, left.pos, left.log, left.outcome.value);
    }
  }

  lemma {:induction false} EqualityLoopNested(ts: seq<Token>, pos: nat, log: seq<Diag>, left: Ast.Expr)
    requires ValidPos(ts, pos)
    requires WellNested(left) && Tier(left) >= 1
    ensures var r := EqualityLoop(ts, pos, log, left);
      r.outcome.Parsed? ==> WellNested(r.outcome.value) && Tier(r.outcome.value) >= 1
    decreases |ts| - pos, 16
  {
    if Matches(ts, pos, EqualityOps) {
      ComparisonNested(ts, pos + 1, log);
      var right := Comparison(ts, pos + 1, log);
      if right.outcome.Parsed? {
        EqualityLoopNested(ts, right.pos, right.log, Ast.Binary(left, ts[pos], right.outcome.value));
      }
    }
  }

  lemma {:induction false} ComparisonNested(ts: seq<Token>, pos: nat, log: seq<Diag>)
    requires ValidPos(ts, pos)
    ensures var r := Comparison(ts, pos, log);
      r.outcome.Parsed? ==> WellNested(r.outcome.value) && Tier(r.outcome.value) >= 2
    decreases |ts| - pos, 14
  {
    TermNested(ts, pos, log);
    var left := Term(ts, pos, log);
    if left.outcome.Parsed? {
      ComparisonLoopNested(ts, left.pos, left.log, left.outcome.value);
    }
  }

  lemma {:induction false} ComparisonLoopNested(ts: seq<Token>, pos: nat, log: seq<Diag>, left: Ast.Expr)
    requires ValidPos(ts, pos)
    requires WellNested(left) && Tier(left) >= 2
    ensures var r := ComparisonLoop(ts, pos, log, left);
      r.outcome.Parsed? ==> WellNested(r.outcome.value) && Tier(r.outcome.value) >= 2
    decreases |ts| - pos, 13
  {
    if Matches(ts, pos, ComparisonOps) {
      TermNested(ts, pos + 1, log);
      var right := Term(ts, pos + 1, log);
      if right.outcome.Parsed? {
        ComparisonLoopNested(ts, right.pos, right.log, Ast.Binary(left, ts[pos], right.outcome.value));
      }
    }
  }

  lemma {:induction false} TermNested(ts: seq<Token>, pos: nat, log: seq<Diag>)
    requires ValidPos(ts, pos)
    ensures var r := Term(ts, pos, log);
      r.outcome.Parsed? ==> WellNested(r.outcome.value) && Tier(r.outcome.value) >= 3
    decreases |ts| - pos, 11
  {
    FactorNested(ts, pos, log);
    var left := Factor(ts, pos, log);
    if left.outcome.Parsed? {
      TermLoopNested(ts, left.pos, left.log, left.outcome.value);
    }
  }

  lemma {:induction false} TermLoopNested(ts: seq<Token>, pos: nat, log: seq<Diag>, left: Ast.Expr)
    requires ValidPos(ts, pos)
    requires WellNested(left) && Tier(left) >= 3
    ensures var r := TermLoop(ts, pos, log, left);
      r.outcome.Parsed? ==> WellNested(r.outcome.value) && Tier(r.outcome.value) >= 3
    decreases |ts| - pos, 10
  {
    if Matches(ts, pos, TermOps) {
      FactorNested(ts, pos + 1, log);
      var right := Factor(ts, pos + 1, log);
      if right.outcome.Parsed? {
        TermLoopNested(ts, right.pos, right.log, Ast.Binary(left, ts[pos], right.outcome.value));
      }
    }
  }

  lemma {:induction false} FactorNested(ts: seq<Token>, pos: nat, log: seq<Diag>)
    requires ValidPos(ts, pos)
    ensures var r := Factor(ts, pos, log);
      r.outcome.Parsed? ==> WellNested(r.outcome.value) && Tier(r.outcome.value) >= 4
    decreases |ts| - pos, 8
  {
    UnaryNested(ts, pos, log);
    var left := Unary(ts, pos, log);
    if left.outcome.Parsed? {
      FactorLoopNested(ts, left.pos, left.log, left.outcome.value);
    }
  }

  lemma {:induction false} FactorLoopNested(ts: seq<Token>, pos: nat, log: seq<Diag>, left: Ast.Expr)
    requires ValidPos(ts, pos)
    requires WellNested(left) && Tier(left) >= 4
    ensures var r := FactorLoop(ts, pos, log, left);
      r.outcome.Parsed? ==> WellNested(r.outcome.value) && Tier(r.outcome.value) >= 4
    decreases |ts| - pos, 7
  {
    if Matches(ts, pos, FactorOps) {
      UnaryNested(ts, pos + 1, log);
      var right := Unary(ts, pos + 1, log);
      if right.outcome.Parsed? {
        FactorLoopNested(ts, right.pos, right.log, Ast.Binary(left, ts[pos], right.outcome.value));
      }
    }
  }

  lemma {:induction false} UnaryNested(ts: seq<Token>, pos: nat, log: seq<Diag>)
    requires ValidPos(ts, pos)
    ensures var r := Unary(ts, pos, log);
      r.outcome.Parsed? ==> WellNested(r.outcome.value) && Tier(r.outcome.value) >= 5
    decreases |ts| - pos, 5
  {
    if Matches(ts, pos, UnaryOps) {
      UnaryNested(ts, pos + 1, log);
    } else {
      PrimaryNested(ts, pos, log);
    }
  }

  lemma {:induction false} PrimaryNested(ts: seq<Token>, pos: nat, log: seq<Diag>)
    requires ValidPos(ts, pos)
    ensures var r := Primary(ts, pos, log);
      r.outcome.Parsed? ==> WellNested(r.outcome.value) && Tier(r.outcome.value) == 6
    decreases |ts| - pos, 4
  {
    if Matches(ts, pos, [LEFT_PAREN]) {
      ExpressionNested(ts, pos + 1, log);
    }
  }

  // ---- two concrete groupings ----

  /** An identifier not followed by `*` or `/` is a factor of its own. */
  lemma VariableFactor(ts: seq<Token>, pos: nat, log: seq<Diag>)
    requires ValidPos(ts, pos + 1) && ts[pos].kind == IDENTIFIER && ts[pos + 1].kind !in FactorOps
    ensures Factor(ts, pos, log) == Step(Parsed(Ast.Variable(pos, ts[pos])), pos + 1, log)
  {
    assert Primary(ts, pos, log) == Step(Parsed(Ast.Variable(pos, ts[pos])), pos + 1, log);
    assert Unary(ts, pos, log) == Primary(ts, pos, log);
  }

  /** An identifier followed by none of the operators of `comparison`, `term`
      and `factor` is a comparison of its own. */
  lemma VariableComparison(ts: seq<Token>, pos: nat, log: seq<Diag>)
    requires ValidPos(ts, pos + 1) && ts[pos].kind == IDENTIFIER
    requires ts[pos + 1].kind !in FactorOps + TermOps + ComparisonOps
    ensures Comparison(ts, pos, log) == Step(Parsed(Ast.Variable(pos, ts[pos])), pos + 1, log)
  {
    VariableFactor(ts, pos, log);
    assert Term(ts, pos, log) == TermLoop(ts, pos + 1, log, Ast.Variable(pos, ts[pos]));
  }

  /** `a - b - c` parses as `(a - b) - c`. */
  lemma SubtractionGroupsLeft(a: Token, minus1: Token, b: Token, minus2: Token, c: Token, eof: Token)
    requires a.kind == IDENTIFIER && b.kind == IDENTIFIER && c.kind == IDENTIFIER
    requires minus1.kind == MINUS && minus2.kind == MINUS && eof.kind == EOF
    ensures Expression([a, minus1, b, minus2, c, eof], 0, []) ==
      Step(Parsed(Ast.Binary(Ast.Binary(Ast.Variable(0, a), minus1, Ast.Variable(2, b)), minus2, Ast.Variable(4, c))), 5, [])
  {
    var ts := [a, minus1, b, minus2, c, eof];
    var ab := Ast.Binary(Ast.Variable(0, a), minus1, Ast.Variable(2, b));
    var abc := Ast.Binary(ab, minus2, Ast.Variable(4, c));
    VariableFactor(ts, 0, []);
    VariableFactor(ts, 2, []);
    VariableFactor(ts, 4, []);
    assert TermLoop(ts, 5, [], abc) == Step(Parsed(abc), 5, []);
    assert TermLoop(ts, 3, [], ab) == TermLoop(ts, 5, [], abc);
    assert TermLoop(ts, 1, [], Ast.Variable(0, a)) == TermLoop(ts, 3, [], ab);
    assert Term(ts, 0, []) == Step(Parsed(abc), 5, []);
    assert Comparison(ts, 0, []) == ComparisonLoop(ts, 5, [], abc);
    assert Equality(ts, 0, []) == EqualityLoop(ts, 5, [], abc);
    assert Assignment(ts, 0, []) == Equality(ts, 0, []);
  }

  /** `a == b == c` parses as `(a == b) == c`. */
  lemma EqualityGroupsLeft(a: Token, eq1: Token, b: Token, eq2: Token, c: Token, eof: Token)
    requires a.kind == IDENTIFIER && b.kind == IDENTIFIER && c.kind == IDENTIFIER
    requires eq1.kind == EQUAL_EQUAL && eq2.kind == EQUAL_EQUAL && eof.kind == EOF
    ensures Expression([a, eq1, b, eq2, c, eof], 0, []) ==
      Step(Parsed(Ast.Binary(Ast.Binary(Ast.Variable(0, a), eq1, Ast.Variable(2, b)), eq2, Ast.Variable(4, c))), 5, [])
  {
    var ts := [a, eq1, b, eq2, c, eof];
    var ab := Ast.Binary(Ast.Variable(0, a), eq1, Ast.Variable(2, b));
    var abc := Ast.Binary(ab, eq2, Ast.Variable(4, c));
    VariableComparison(ts, 0, []);
    VariableComparison(ts, 2, []);
    VariableComparison(ts, 4, []);
    assert EqualityLoop(ts, 5, [], abc) == Step(Parsed(abc), 5, []);
    assert EqualityLoop(ts, 3, [], ab) == EqualityLoop(ts, 5, [], abc);
    assert EqualityLoop(ts, 1, [], Ast.Variable(0, a)) == EqualityLoop(ts, 3, [], ab);
    assert Equality(ts, 0, []) == Step(Parsed(abc), 5, []);
    assert Assignment(ts, 0, []) == Equality(ts, 0, []);
  }

  // ---- assignment targets ----

  /** After `l =` with a value that parses: a Variable on the left becomes
      an Assign node for the same name; anything else is kept as it is and
      "Invalid assignment target." is reported at the `=`, without failing. */
  lemma AssignmentTarget(ts: seq<Token>, pos: nat, log: seq<Diag>)
    requires ValidPos(ts, pos)
    ensures var l := Equality(ts, pos, log);
      l.outcome.Parsed? && Check(ts, l.pos, EQUAL) && Assignment(ts, l.pos + 1, l.log).outcome.Parsed? ==>
        var r := Assignment(ts, pos, log);
        r.outcome.Parsed? && r.pos == Assignment(ts, l.pos + 1, l.log).pos &&
        (l.outcome.value.Variable? ==>
           r.outcome.value.Assign? && r.outcome.value.name == l.outcome.value.name &&
           r.outcome.value.rvalue == Assignment(ts, l.pos + 1, l.log).outcome.value) &&
        (!l.outcome.value.Variable? ==>
           r.outcome.value == l.outcome.value &&
           r.log == Assignment(ts, l.pos + 1, l.log).log + [Diag(ts[l.pos], "Invalid assignment target.")])
  {
  }

  // ---- parse: every declaration is kept, a dropped one was reported ----

  /** The number of declarations that failed to parse (`null` in the list). */
  function Dropped(ss: seq<Option<Ast.Stmt>>): (n: nat)
    ensures n <= |ss|
    ensures n == 0 <==> forall k :: 0 <= k < |ss| ==> ss[k].Some?
  {
    if ss == [] then 0
    else Dropped(ss[..|ss| - 1]) + (if ss[|ss| - 1].None? then 1 else 0)
  }

  /** The `while (!isAtEnd())` loop of `parse`: the statements so far stay
      in front, each round adds one entry and consumes at least one token,
      and every `null` entry comes with a report of its own. */
  lemma {:induction false} ParseLoopShape(ts: seq<Token>, pos: nat, acc: seq<Option<Ast.Stmt>>, log: seq<Diag>)
    requires ValidPos(ts, pos)
    ensures var p := ParseLoop(ts, pos, acc, log);
      |acc| <= |p.statements| <= |acc| + (|ts| - 1 - pos) &&
      p.statements[..|acc|] == acc && Extends(log, p.log) &&
      Dropped(p.statements) - Dropped(acc) <= |p.log| - |log|
    decreases |ts| - pos
  {
    if !AtEnd(ts, pos) {
      var d := Declaration(ts, pos, log);
      var acc1 := acc + [d.outcome.value];
      assert acc1[..|acc1| - 1] == acc;
      ParseLoopShape(ts, d.pos, acc1, d.log);
      var p := ParseLoop(ts, pos, acc, log);
      assert p.statements[..|acc1|][..|acc|] == p.statements[..|acc|];
    }
  }

  /** `parse` returns at most one statement per token before EOF; each
      `null` statement has at least one error reported for it, so a parse
      that reported nothing has no `null` statement. */
  lemma ParseShape(ts: seq<Token>)
    requires WellFormed(ts)
    ensures |Parse(ts).statements| <= |ts| - 1
    ensures Dropped(Parse(ts).statements) <= |Parse(ts).log|
    ensures Parse(ts).log == [] ==> forall k :: 0 <= k < |Parse(ts).statements| ==> Parse(ts).statements[k].Some?
  {
    ParseLoopShape(ts, 0, [], []);
  }
}
