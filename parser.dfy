/** Parser.kt: the recursive-descent parser over a token list with a
    mutable cursor. Each method is proved to move the cursor, append to the
    error reports and return exactly what the corresponding function of
    ParserSpec describes. A method returning `Failed` stands for the
    ParseError the Kotlin code throws; `errors` collects the reports made
    through `Lox.error`. */
module Parsing {
  import opened Wrappers
  import opened Tokens
  import opened Runtime
  import opened Ast
  import S = ParserSpec

  class Parser {
    const tokens: seq<Token>
    var current: nat
    var errors: seq<Diag>

    ghost predicate Valid()
      reads this
    {
      S.ValidPos(tokens, current)
    }

    constructor (tokens: seq<Token>)
      requires S.WellFormed(tokens)
      ensures Valid() && this.tokens == tokens && current == 0 && errors == []
    {
      this.tokens := tokens;
      current := 0;
      errors := [];
    }

    /** `isAtEnd`. */
    method IsAtEnd() returns (b: bool)
      requires Valid()
      ensures b == S.AtEnd(tokens, current)
    {
      var t := Peek();
      b := t.kind == EOF;
    }

    /** `peek`. */
    method Peek() returns (t: Token)
      requires Valid()
      ensures t == tokens[current]
    {
      t := tokens[current];
    }

    /** `previous`: the Kotlin code indexes `current - 1`, so the cursor must
        have moved. */
    method Previous() returns (t: Token)
      requires Valid() && current >= 1
      ensures t == tokens[current - 1]
    {
      t := tokens[current - 1];
    }

    /** `check`: false at EOF for every kind. */
    method Check(kind: TokenType) returns (b: bool)
      requires Valid()
      ensures b == S.Check(tokens, current, kind)
      ensures S.AtEnd(tokens, current) ==> !b
    {
      var end := IsAtEnd();
      if end {
        return false;
      }
      var t := Peek();
      b := t.kind == kind;
    }

    /** `advance`: moves one token unless at EOF, so the cursor never passes
        the EOF token, and returns the token just consumed. At EOF it returns
        the token before EOF, which must exist. */
    method Advance() returns (t: Token)
      requires Valid() && (current >= 1 || !S.AtEnd(tokens, current))
      modifies this
      ensures Valid() && errors == old(errors)
      ensures current == S.Advance(tokens, old(current))
      ensures t == tokens[current - 1]
      ensures !S.AtEnd(tokens, old(current)) ==> t == tokens[old(current)]
    {
      var end := IsAtEnd();
      if !end {
        current := current + 1;
      }
      t := Previous();
    }

    /** `match(kinds...)`: advances one token when one of the kinds is the
        current (non-EOF) token; otherwise nothing changes. */
    method Match(kinds: seq<TokenType>) returns (b: bool)
      requires Valid()
      modifies this
      ensures Valid() && errors == old(errors)
      ensures b == S.Matches(tokens, old(current), kinds)
      ensures current == if b then old(current) + 1 else old(current)
    {
      for i := 0 to |kinds|
        invariant current == old(current) && errors == old(errors)
        invariant !S.Matches(tokens, current, kinds[..i])
      {
        var c := Check(kinds[i]);
        if c {
          var _ := Advance();
          return true;
        }
        assert kinds[..i + 1] == kinds[..i] + [kinds[i]];
      }
      assert kinds[..|kinds|] == kinds;
      return false;
    }

    /** `error`: reports through `Lox.error`; the caller throws. */
    method Error(token: Token, message: string)
      modifies this
      ensures current == old(current) && errors == old(errors) + [Diag(token, message)]
    {
      errors := errors + [Diag(token, message)];
    }

    /** `consume`. */
    method Consume(kind: TokenType, message: string) returns (r: S.Outcome<Token>)
      requires Valid()
      modifies this
      ensures Valid()
      ensures S.Consume(tokens, old(current), old(errors), kind, message) == S.Step(r, current, errors)
    {
      var c := Check(kind);
      if c {
        var t := Advance();
        return S.Parsed(t);
      }
      var t := Peek();
      Error(t, message);
      return S.Failed;
    }

    /** `synchronize`: discards tokens up to the next statement boundary. */
    method Synchronize()
      requires Valid() && (current >= 1 || !S.AtEnd(tokens, current))
      modifies this
      ensures Valid() && errors == old(errors)
      ensures current == S.Synchronize(tokens, old(current))
    {
      var _ := Advance();
      var end := IsAtEnd();
      while !end
        invariant Valid() && current >= 1 && errors == old(errors)
        invariant end == S.AtEnd(tokens, current)
        invariant S.SyncLoop(tokens, current) == S.Synchronize(tokens, old(current))
        decreases |tokens| - current
      {
        var prev := Previous();
        if prev.kind == SEMICOLON {
          return;
        }
        var next := Peek();
        if S.StartsStatement(next.kind) {
          return;
        }
        var _ := Advance();
        end := IsAtEnd();
      }
    }

    /** `expression`. */
    method Expression() returns (r: S.Outcome<Expr>)
      requires Valid()
      modifies this
      ensures Valid()
      ensures S.Expression(tokens, old(current), old(errors)) == S.Step(r, current, errors)
      decreases |tokens| - current, 20
    {
      r := Assignment();
    }

    /** `assignment`. The Assign node's identity is the position of its `=`. */
    method Assignment() returns (r: S.Outcome<Expr>)
      requires Valid()
      modifies this
      ensures Valid()
      ensures S.Assignment(tokens, old(current), old(errors)) == S.Step(r, current, errors)
      decreases |tokens| - current, 19
    {
      var expr := Equality();
      if expr.Failed? {
        return S.Failed;
      }
      var m := Match([EQUAL]);
      if m {
        var equals := Previous();
        var equalsAt := current - 1;
        var value := Assignment();
        if value.Failed? {
          return S.Failed;
        }
        if expr.value.Variable? {
          var name := expr.value.name;
          return S.Parsed(Assign(equalsAt, name, value.value));
        }
        Error(equals, "Invalid assignment target.");
      }
      return expr;
    }

    /** `equality`: comparisons joined by `!=` and `==`, left-associative. */
    method Equality() returns (r: S.Outcome<Expr>)
      requires Valid()
      modifies this
      ensures Valid()
      ensures S.Equality(tokens, old(current), old(errors)) == S.Step(r, current, errors)
      decreases |tokens| - current, 17
    {
      var first := Comparison();
      if first.Failed? {
        return S.Failed;
      }
      var expr := first.value;
      while true
        invariant Valid() && current >= old(current)
        invariant S.EqualityLoop(tokens, current, errors, expr) == S.Equality(tokens, old(current), old(errors))
        decreases |tokens| - current
      {
        var matched := Match(S.EqualityOps);
        if !matched {
          break;
        }
        var operator := Previous();
        var right := Comparison();
        if right.Failed? {
          return S.Failed;
        }
        expr := Binary(expr, operator, right.value);
      }
      return S.Parsed(expr);
    }

    /** `comparison`: terms joined by `>`, `>=`, `<`, `<=`. */
    method Comparison() returns (r: S.Outcome<Expr>)
      requires Valid()
      modifies this
      ensures Valid()
      ensures S.Comparison(tokens, old(current), old(errors)) == S.Step(r, current, errors)
      decreases |tokens| - current, 14
    {
      var first := Term();
      if first.Failed? {
        return S.Failed;
      }
      var expr := first.value;
      while true
        invariant Valid() && current >= old(current)
        invariant S.ComparisonLoop(tokens, current, errors, expr) == S.Comparison(tokens, old(current), old(errors))
        decreases |tokens| - current
      {
        var matched := Match(S.ComparisonOps);
        if !matched {
          break;
        }
        var operator := Previous();
        var right := Term();
        if right.Failed? {
          return S.Failed;
        }
        expr := Binary(expr, operator, right.value);
      }
      return S.Parsed(expr);
    }

    /** `term`: factors joined by `-` and `+`. */
    method Term() returns (r: S.Outcome<Expr>)
      requires Valid()
      modifies this
      ensures Valid()
      ensures S.Term(tokens, old(current), old(errors)) == S.Step(r, current, errors)
      decreases |tokens| - current, 11
    {
      var first := Factor();
      if first.Failed? {
        return S.Failed;
      }
      var expr := first.value;
      while true
        invariant Valid() && current >= old(current)
        invariant S.TermLoop(tokens, current, errors, expr) == S.Term(tokens, old(current), old(errors))
        decreases |tokens| - current
      {
        var matched := Match(S.TermOps);
        if !matched {
          break;
        }
        var operator := Previous();
        var right := Factor();
        if right.Failed? {
          return S.Failed;
        }
        expr := Binary(expr, operator, right.value);
      }
      return S.Parsed(expr);
    }

    /** `factor`: unary expressions joined by `/` and `*`. */
    method Factor() returns (r: S.Outcome<Expr>)
      requires Valid()
      modifies this
      ensures Valid()
      ensures S.Factor(tokens, old(current), old(errors)) == S.Step(r, current, errors)
      decreases |tokens| - current, 8
    {
      var first := Unary();
      if first.Failed? {
        return S.Failed;
      }
      var expr := first.value;
      while true
        invariant Valid() && current >= old(current)
        invariant S.FactorLoop(tokens, current, errors, expr) == S.Factor(tokens, old(current), old(errors))
        decreases |tokens| - current
      {
        var matched := Match(S.FactorOps);
        if !matched {
          break;
        }
        var operator := Previous();
        var right := Unary();
        if right.Failed? {
          return S.Failed;
        }
        expr := Binary(expr, operator, right.value);
      }
      return S.Parsed(expr);
    }

    /** `unary`. */
    method Unary() returns (r: S.Outcome<Expr>)
      requires Valid()
      modifies this
      ensures Valid()
      ensures S.Unary(tokens, old(current), old(errors)) == S.Step(r, current, errors)
      decreases |tokens| - current, 5
    {
      var m := Match(S.UnaryOps);
      if m {
        var operator := Previous();
        var right := Unary();
        if right.Failed? {
          return S.Failed;
        }
        return S.Parsed(Expr.Unary(operator, right.value));
      }
      r := Primary();
    }

    /** `primary`. A Variable node's identity is the position of its
        identifier token. */
    method Primary() returns (r: S.Outcome<Expr>)
      requires Valid()
      modifies this
      ensures Valid()
      ensures S.Primary(tokens, old(current), old(errors)) == S.Step(r, current, errors)
      decreases |tokens| - current, 4
    {
      var m := Match([FALSE]);
      if m {
        return S.Parsed(Literal(Bool(false)));
      }
      m := Match([TRUE]);
      if m {
        return S.Parsed(Literal(Bool(true)));
      }
      m := Match([NIL]);
      if m {
        return S.Parsed(Literal(Value.Nil));
      }
      m := Match([NUMBER, STRING]);
      if m {
        var t := Previous();
        return S.Parsed(Literal(S.LiteralValue(t.literal)));
      }
      m := Match([IDENTIFIER]);
      if m {
        var t := Previous();
        return S.Parsed(Variable(current - 1, t));
      }
      m := Match([LEFT_PAREN]);
      if m {
        var expr := Expression();
        if expr.Failed? {
          return S.Failed;
        }
        var close := Consume(RIGHT_PAREN, "Expected ')' after expression");
        if close.Failed? {
          return S.Failed;
        }
        return S.Parsed(Grouping(expr.value));
      }
      var t := Peek();
      Error(t, "Expceted expression");
      return S.Failed;
    }

    /** `expressionStatement`. */
    method ExpressionStatement() returns (r: S.Outcome<Stmt>)
      requires Valid()
      modifies this
      ensures Valid()
      ensures S.ExpressionStatement(tokens, old(current), old(errors)) == S.Step(r, current, errors)
      decreases |tokens| - current, 21
    {
      var expr := Expression();
      if expr.Failed? {
        return S.Failed;
      }
      var semi := Consume(SEMICOLON, "Expected ';' after expression.");
      if semi.Failed? {
        return S.Failed;
      }
      return S.Parsed(Stmt.Expression(expr.value));
    }

    /** `printStatement`. */
    method PrintStatement() returns (r: S.Outcome<Stmt>)
      requires Valid()
      modifies this
      ensures Valid()
      ensures S.PrintStatement(tokens, old(current), old(errors)) == S.Step(r, current, errors)
      decreases |tokens| - current, 21
    {
      var value := Expression();
      if value.Failed? {
        return S.Failed;
      }
      var semi := Consume(SEMICOLON, "Expected ';' after value.");
      if semi.Failed? {
        return S.Failed;
      }
      return S.Parsed(Print(value.value));
    }

    /** `block`. */
    method Block() returns (r: S.Outcome<seq<Option<Stmt>>>)
      requires Valid()
      modifies this
      ensures Valid()
      ensures S.Block(tokens, old(current), old(errors)) == S.Step(r, current, errors)
      decreases |tokens| - current, 25
    {
      var ret: seq<Option<Stmt>> := [];
      while true
        invariant Valid() && current >= old(current)
        invariant S.BlockLoop(tokens, current, errors, ret) == S.BlockLoop(tokens, old(current), old(errors), [])
        decreases |tokens| - current
      {
        var close := Check(RIGHT_BRACE);
        var end := IsAtEnd();
        if close || end {
          break;
        }
        var d := Declaration();
        ret := ret + [d];
      }
      var close := Consume(RIGHT_BRACE, "Expected '}' after block.");
      if close.Failed? {
        return S.Failed;
      }
      return S.Parsed(ret);
    }

    /** `statement`. */
    method Statement() returns (r: S.Outcome<Stmt>)
      requires Valid()
      modifies this
      ensures Valid()
      ensures S.Statement(tokens, old(current), old(errors)) == S.Step(r, current, errors)
      decreases |tokens| - current, 22
    {
      var m := Match([PRINT]);
      if m {
        r := PrintStatement();
        return;
      }
      m := Match([LEFT_BRACE]);
      if m {
        var b := Block();
        if b.Failed? {
          return S.Failed;
        }
        return S.Parsed(Stmt.Block(b.value));
      }
      r := ExpressionStatement();
    }

    /** `varDeclaration`. */
    method VarDeclaration() returns (r: S.Outcome<Stmt>)
      requires Valid()
      modifies this
      ensures Valid()
      ensures S.VarDeclaration(tokens, old(current), old(errors)) == S.Step(r, current, errors)
      decreases |tokens| - current, 21
    {
      var name := Consume(IDENTIFIER, "Expected variable name.");
      if name.Failed? {
        return S.Failed;
      }
      var initializer: Option<Expr> := None;
      var m := Match([EQUAL]);
      if m {
        var init := Expression();
        if init.Failed? {
          return S.Failed;
        }
        initializer := Some(init.value);
      }
      var semi := Consume(SEMICOLON, "Expected ';' after variable declaration.");
      if semi.Failed? {
        return S.Failed;
      }
      return S.Parsed(Var(name.value, initializer));
    }

    /** `declaration`: never throws; a statement that fails to parse becomes
        `None` and the cursor is resynchronised. */
    method Declaration() returns (r: Option<Stmt>)
      requires Valid() && !S.AtEnd(tokens, current)
      modifies this
      ensures Valid()
      ensures S.Declaration(tokens, old(current), old(errors)) == S.Step(S.Parsed(r), current, errors)
      decreases |tokens| - current, 23
    {
      var isVar := Match([VAR]);
      var s: S.Outcome<Stmt>;
      if isVar {
        s := VarDeclaration();
      } else {
        s := Statement();
      }
      if s.Failed? {
        Synchronize();
        return None;
      }
      return Some(s.value);
    }

    /** `parse`: one entry per declaration until EOF. */
    method Parse() returns (r: seq<Option<Stmt>>)
      requires Valid()
      modifies this
      ensures Valid()
      ensures S.ParseLoop(tokens, old(current), [], old(errors)) == S.Program(r, errors)
    {
      var ret: seq<Option<Stmt>> := [];
      var end := IsAtEnd();
      while !end
        invariant Valid() && end == S.AtEnd(tokens, current)
        invariant S.ParseLoop(tokens, current, ret, errors) == S.ParseLoop(tokens, old(current), [], old(errors))
        decreases |tokens| - current
      {
        var d := Declaration();
        ret := ret + [d];
        end := IsAtEnd();
      }
      return ret;
    }
  }
}
