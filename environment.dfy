/** Environment.kt: a chain of mutable name tables linked through the
    immutable `enclosing` reference. The ghost `Chain` lists this
    environment and its ancestors, innermost first; `Frames` is their tables
    in the same order, and every operation is stated against it. */
module Environments {
  import opened Wrappers
  import opened Tokens
  import opened Runtime

  /** Index of the innermost table that binds `name`, if any. */
  function Nearest(frames: seq<map<string, Value>>, name: string): (r: Option<nat>)
    ensures r.Some? ==> r.value < |frames| && name in frames[r.value]
    ensures r.Some? ==> forall j :: 0 <= j < r.value ==> name !in frames[j]
    ensures r.None? ==> forall j :: 0 <= j < |frames| ==> name !in frames[j]
  {
    if frames == [] then None
    else if name in frames[0] then Some(0)
    else
      var rest := Nearest(frames[1..], name);
      if rest.None? then None else Some(rest.value + 1)
  }

  /** The error `get` and `assign` throw for an unbound name. */
  function Undefined(name: Token): RuntimeError {
    RuntimeError(name, "Undefined variable '" + name.lexeme + "'.")
  }

  /** What `get` returns on tables `frames`. */
  function Lookup(frames: seq<map<string, Value>>, name: Token): (r: Result<Value, RuntimeError>)
    ensures r.Ok? <==> exists j :: 0 <= j < |frames| && name.lexeme in frames[j]
    ensures r.Err? ==> r.error == Undefined(name)
    ensures r.Ok? ==> exists j :: 0 <= j < |frames| && name.lexeme in frames[j] && r.value == frames[j][name.lexeme] &&
                                  forall k :: 0 <= k < j ==> name.lexeme !in frames[k]
  {
    var i := Nearest(frames, name.lexeme);
    if i.None? then Err(Undefined(name)) else Ok(frames[i.value][name.lexeme])
  }

  /** The tables after `assign`: the innermost binding is overwritten; None
      when no table binds the name. */
  function Assigned(frames: seq<map<string, Value>>, name: string, value: Value): (r: Option<seq<map<string, Value>>>)
    ensures r.Some? ==> |r.value| == |frames|
  {
    var i := Nearest(frames, name);
    if i.None? then None else Some(frames[i.value := frames[i.value][name := value]])
  }

  class Environment {
    const enclosing: Environment?
    var values: map<string, Value>
    ghost const Chain: seq<Environment>

    /** The chain starts at this environment, follows `enclosing`, and never
        comes back to this environment (so it is acyclic). */
    ghost predicate Valid()
      decreases |Chain|
    {
      |Chain| >= 1 && Chain[0] == this &&
      (enclosing == null ==> |Chain| == 1) &&
      (enclosing != null ==>
        Chain[1..] == enclosing.Chain && this !in enclosing.Chain && enclosing.Valid())
    }

    /** The tables of the chain, innermost first. */
    ghost function Frames(): (fs: seq<map<string, Value>>)
      requires Valid()
      reads Chain
      ensures |fs| == |Chain|
      ensures fs[0] == values
      ensures forall j :: 0 <= j < |Chain| ==> fs[j] == Chain[j].values
      decreases |Chain|
    {
      if enclosing == null then [values] else [values] + enclosing.Frames()
    }

    constructor (enclosing: Environment?)
      requires enclosing != null ==> enclosing.Valid()
      ensures Valid() && this.enclosing == enclosing && values == map[]
      ensures Chain == [this] + (if enclosing == null then [] else enclosing.Chain)
      ensures Frames() == [map[]] + (if enclosing == null then [] else enclosing.Frames())
    {
      this.enclosing := enclosing;
      values := map[];
      Chain := [this] + (if enclosing == null then [] else enclosing.Chain);
    }
  
    /** `define`: binds the name in this environment's own table,
        overwriting any binding there; enclosing tables are untouched. */
    method Define(name: string, value: Value)
      requires Valid()
      modifies this
      ensures Valid() && values == old(values)[name := value]
      ensures Frames() == old(Frames())[0 := old(values)[name := value]]
    {
      values := values[name := value];
    }

    /** `get`: the value bound in the nearest environment that has the
        name, else "Undefined variable". */
    method Get(name: Token) returns (r: Result<Value, RuntimeError>)
      requires Valid()
      ensures r == Lookup(Frames(), name)
      decreases |Chain|
    {
      if name.lexeme in values {
        return Ok(values[name.lexeme]);
      }
      if enclosing != null {
        r := enclosing.Get(name);
        return;
      }
      return Err(Undefined(name));
    }

    /** `assign`: overwrites the binding in the nearest environment that has
        the name and never creates one; with no binding it throws and
        nothing changes. The result is the error thrown, if any. */
    method Assign(name: Token, value: Value) returns (failure: Option<RuntimeError>)
      requires Valid()
      modifies Chain
      ensures Valid()
      ensures Assigned(old(Frames()), name.lexeme, value).None? ==>
                failure == Some(Undefined(name)) && Frames() == old(Frames())
      ensures Assigned(old(Frames()), name.lexeme, value).Some? ==>
                failure == None && Frames() == Assigned(old(Frames()), name.lexeme, value).value
      decreases |Chain|
    {
      if name.lexeme in values {
        values := values[name.lexeme := value];
        return None;
      } else if enclosing != null {
        AssignedBelow(values, enclosing.Frames(), name.lexeme, value);
        failure := enclosing.Assign(name, value);
      } else {
        return Some(Undefined(name));
      }
    }

    /** `ancestor`: follows exactly `distance` enclosing links; null when
        the chain is shorter (a negative distance follows none). */
    method Ancestor(distance: int) returns (e: Environment?)
      requires Valid()
      ensures e == if distance <= 0 then this else if distance < |Chain| then Chain[distance] else null
      ensures e != null ==> e.Valid() && e.Chain == Chain[Steps(distance)..]
    {
      var ret: Environment? := this;
      var n := if distance <= 0 then 0 else distance;
      for i := 0 to n
        invariant ret == if i < |Chain| then Chain[i] else null
      {
        if ret != null {
          ChainAt(this, i);
        }
        ret := if ret == null then null else ret.enclosing;
      }
      if ret != null {
        ChainAt(this, n);
      }
      e := ret;
    }

    /** `getAt`: reads only the ancestor's own table; nil when the ancestor
        or the name is missing, never an error. */
    method GetAt(distance: int, name: string) returns (v: Value)
      requires Valid()
      ensures var d := Steps(distance);
        v == if d < |Chain| && name in Frames()[d] then Frames()[d][name] else Nil
    {
      var e := Ancestor(distance);
      if e == null || name !in e.values {
        v := Nil;
      } else {
        v := e.values[name];
      }
    }

    /** `assignAt`: writes into the ancestor's own table, creating the key
        if absent; nothing happens when the ancestor is missing. */
    method AssignAt(distance: int, name: Token, value: Value)
      requires Valid()
      modifies Chain
      ensures Valid()
      ensures var d := Steps(distance);
        Frames() == if d < |Chain| then old(Frames())[d := old(Frames())[d][name.lexeme := value]] else old(Frames())
    {
      var e := Ancestor(distance);
      ghost var d := Steps(distance);
      if e != null {
        FramesAt(this, d);
        ChainDistinct(this, d);
        e.values := e.values[name.lexeme := value];
        assert forall j :: 0 <= j < |Chain| ==>
          Frames()[j] == old(Frames())[d := old(Frames())[d][name.lexeme := value]][j];
      }
    }
  }

  /** The number of links `ancestor(distance)` follows. */
  function Steps(distance: int): nat {
    if distance <= 0 then 0 else distance
  }

  lemma ChainAt(e: Environment, i: nat)
    requires e.Valid() && i < |e.Chain|
    ensures e.Chain[i].Valid() && e.Chain[i].Chain == e.Chain[i..]
    ensures e.Chain[i].enclosing == if i + 1 < |e.Chain| then e.Chain[i + 1] else null
    decreases i
  {
    if i > 0 {
      ChainAt(e.enclosing, i - 1);
    }
  }

  lemma FramesAt(e: Environment, i: nat)
    requires e.Valid() && i < |e.Chain|
    ensures e.Chain[i].Valid() && e.Chain[i].Frames() == e.Frames()[i..]
    ensures e.Frames()[i] == e.Chain[i].values
    decreases i
  {
    ChainAt(e, i);
    if i > 0 {
      FramesAt(e.enclosing, i - 1);
    }
  }

  /** No environment occurs twice in a chain. */
  lemma ChainDistinct(e: Environment, i: nat)
    requires e.Valid() && i < |e.Chain|
    ensures forall j :: 0 <= j < |e.Chain| && j != i ==> e.Chain[j] != e.Chain[i]
    decreases |e.Chain|
  {
    if e.enclosing != null {
      if i > 0 {
        ChainDistinct(e.enclosing, i - 1);
        assert e.Chain[i] in e.enclosing.Chain;
      } else {
        forall j | 0 < j < |e.Chain| ensures e.Chain[j] != e.Chain[0] {
          assert e.Chain[j] == e.enclosing.Chain[j - 1];
        }
      }
    }
  }

  /** `assign` on a chain whose first table does not bind the name is
      `assign` on the rest of the chain. */
  lemma AssignedBelow(top: map<string, Value>, rest: seq<map<string, Value>>, name: string, value: Value)
    requires name !in top
    ensures Assigned(rest, name, value).None? ==> Assigned([top] + rest, name, value).None?
    ensures Assigned(rest, name, value).Some? ==>
      Assigned([top] + rest, name, value) == Some([top] + Assigned(rest, name, value).value)
  {
    var frames := [top] + rest;
    assert frames[1..] == rest;
    var i := Nearest(rest, name);
    if i.Some? {
      assert Nearest(frames, name) == Some(i.value + 1);
      var updated := rest[i.value := rest[i.value][name := value]];
      assert frames[i.value + 1 := frames[i.value + 1][name := value]] == [top] + updated;
    }
  }

  /** Two chains whose tables bind the same names agree on where a name is
      bound. */
  lemma {:induction false} NearestSameKeys(a: seq<map<string, Value>>, b: seq<map<string, Value>>, name: string)
    requires |a| == |b| && forall j :: 0 <= j < |a| ==> a[j].Keys == b[j].Keys
    ensures Nearest(a, name) == Nearest(b, name)
  {
    if a != [] && name !in a[0] {
      NearestSameKeys(a[1..], b[1..], name);
    }
  }

  /** After `assign` succeeds: no table gained or lost a name, only the
      innermost table binding the name changed, and `get` of the name now
      returns the assigned value. */
  lemma AssignThenLookup(frames: seq<map<string, Value>>, name: Token, value: Value)
    requires Assigned(frames, name.lexeme, value).Some?
    ensures var fs := Assigned(frames, name.lexeme, value).value;
      (forall j :: 0 <= j < |frames| ==> fs[j].Keys == frames[j].Keys) &&
      (forall j :: 0 <= j < |frames| && j != Nearest(frames, name.lexeme).value ==> fs[j] == frames[j]) &&
      Lookup(fs, name) == Ok(value)
  {
    var i := Nearest(frames, name.lexeme).value;
    var fs := frames[i := frames[i][name.lexeme := value]];
    assert forall j :: 0 <= j < |frames| ==> fs[j].Keys == frames[j].Keys;
    NearestSameKeys(fs, frames, name.lexeme);
  }

  /** `assign` succeeds exactly when some table in the chain binds the name. */
  lemma AssignSucceedsIffBound(frames: seq<map<string, Value>>, name: string, value: Value)
    ensures Assigned(frames, name, value).Some? <==> exists j :: 0 <= j < |frames| && name in frames[j]
  {
  }

  /** After `define(n, v)` on an environment, `get(n)` on it returns `v`,
      whatever the enclosing environments bind. */
  lemma DefineThenLookup(frames: seq<map<string, Value>>, name: Token, value: Value)
    requires |frames| >= 1
    ensures Lookup(frames[0 := frames[0][name.lexeme := value]], name) == Ok(value)
  {
  }

  /** The same property, on the objects: define then get in one scope. */
  method DefineThenGet(env: Environment, name: Token, value: Value) returns (r: Result<Value, RuntimeError>)
    requires env.Valid()
    modifies env
    ensures r == Ok(value)
    ensures env.values == old(env.values)[name.lexeme := value]
  {
    env.Define(name.lexeme, value);
    r := env.Get(name);
  }
}
