/** Runtime values of the interpreter and the instance objects of
    LoxInstance.kt. `Value` and `LoxInstance` refer to each other, so they
    live in one module. LoxClass.kt and LoxFunction.kt are not part of this
    model: a class is its name and its own method table, a function is
    identified by its name and the instance it is bound to. */
module Runtime {
  import opened Wrappers
  import opened Tokens

  /** A user function; `receiver` is the instance `bind` attached it to. */
  datatype LoxFunction = LoxFunction(name: string, receiver: Option<LoxInstance>)

  datatype LoxClass = LoxClass(name: string, methods: map<string, LoxFunction>) {
    /** `findMethod`: the class's own method of that name, if any. */
    function FindMethod(name: string): (r: Option<LoxFunction>)
      ensures r.Some? <==> name in methods
      ensures r.Some? ==> r.value == methods[name]
    {
      if name in methods then Some(methods[name]) else None
    }
  }

  /** `bind`: the same function with `this` fixed to `instance`. */
  function Bind(f: LoxFunction, instance: LoxInstance): (r: LoxFunction)
    ensures r.name == f.name && r.receiver == Some(instance)
  {
    f.(receiver := Some(instance))
  }

  /** The host values the interpreter manipulates (Kotlin's `Any?`):
      `null` is Nil, a `Double` is a real number. */
  datatype Value =
    | Nil
    | Bool(b: bool)
    | Num(x: real)
    | Str(s: string)
    | Callable(fn: LoxFunction)
    | Instance(obj: LoxInstance)

  /** The exception `RuntimeError(token, message)`. */
  datatype RuntimeError = RuntimeError(token: Token, message: string)

  /** How the host renders what the model keeps abstract: `Double.toString`
      and the `toString` of a function object. */
  datatype Render = Render(number: real -> string, fn: LoxFunction -> string)

  /** `toString()` of a non-null host value. */
  function HostText(v: Value, render: Render): (s: string)
    ensures v.Bool? ==> s == if v.b then "true" else "false"
    ensures v.Str? ==> s == v.s
    ensures v.Num? ==> s == render.number(v.x)
    ensures v.Instance? ==> s == v.obj.clazz.name + " instance"
  {
    match v
    case Nil => "null"
    case Bool(b) => if b then "true" else "false"
    case Num(x) => render.number(x)
    case Str(s) => s
    case Callable(f) => render.fn(f)
    case Instance(obj) => obj.ToString()
  }

  /** An instance of a class: a fixed class and a field table that grows
      only through `Set`. */
  class LoxInstance {
    const clazz: LoxClass
    var fields: map<string, Value>

    constructor (clazz: LoxClass)
      ensures this.clazz == clazz && fields == map[]
    {
      this.clazz := clazz;
      fields := map[];
    }

    /** `toString`: the class name followed by " instance". */
    function ToString(): (s: string)
      ensures |s| == |clazz.name| + 9
      ensures s[..|clazz.name|] == clazz.name && s[|clazz.name|..] == " instance"
    {
      clazz.name + " instance"
    }

    /** `get`: a field shadows a method of the same name; a method is
        returned bound to this instance; otherwise a runtime error. */
    method Get(name: Token) returns (r: Result<Value, RuntimeError>)
      ensures name.lexeme in fields ==> r == Ok(fields[name.lexeme])
      ensures name.lexeme !in fields && name.lexeme in clazz.methods ==>
                r == Ok(Callable(Bind(clazz.methods[name.lexeme], this)))
      ensures name.lexeme !in fields && name.lexeme !in clazz.methods ==>
                r == Err(RuntimeError(name, "Undefined property " + name.lexeme + "."))
    {
      if name.lexeme in fields {
        return Ok(fields[name.lexeme]);
      }
      var m := clazz.FindMethod(name.lexeme);
      if m.Some? {
        return Ok(Callable(Bind(m.value, this)));
      }
      return Err(RuntimeError(name, "Undefined property " + name.lexeme + "."));
    }

    /** `set`: stores the value under the name, creating the field if absent;
        no other field changes. */
    method Set(name: Token, value: Value)
      modifies this
      ensures fields == old(fields)[name.lexeme := value]
      ensures forall n :: n != name.lexeme && n in old(fields) ==> n in fields && fields[n] == old(fields)[n]
    {
      fields := fields[name.lexeme := value];
    }
  }

  /** A write followed by a read of the same name yields the written value,
      whatever methods the class has. */
  method SetThenGet(instance: LoxInstance, name: Token, value: Value) returns (r: Result<Value, RuntimeError>)
    modifies instance
    ensures r == Ok(value)
    ensures instance.fields == old(instance.fields)[name.lexeme := value]
  {
    instance.Set(name, value);
    r := instance.Get(name);
  }
}
