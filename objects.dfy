/** The runtime values of objects.ts and the flat name table of env.ts. The
    two files import each other (a function value holds its environment),
    so they share one module here. */
module Objects {
  import opened Wrappers
  import opened Ast
  import Numbers

  type ObjectType = string

  const INT_OBJ: ObjectType := "INTEGER"
  const BOOL_OBJ: ObjectType := "BOOLEAN"
  const NULL_OBJ: ObjectType := "NULL"
  const RETURN_OBJ: ObjectType := "RETURN"
  const FUNCTION_OBJ: ObjectType := "FUNCTION"
  const STRING_OBJ: ObjectType := "STRING"
  const ERROR_OBJ: ObjectType := "ERROR"

  /** One constructor per class implementing `MObject`. Integers hold the
      exact integers a JavaScript number can be after `Math.floor`. */
  datatype Object =
    | Integer(value: int)
    | Boolean(bvalue: bool)
    | Null
    | Return(inner: Object)
    | String(svalue: string)
    | Function(params: seq<Identifier>, body: Option<BlockStatement>, env: Environment)
    | Err(message: string)

  /** `Type()`. */
  function TypeOf(o: Object): (t: ObjectType)
    ensures t == INT_OBJ <==> o.Integer?
    ensures t == BOOL_OBJ <==> o.Boolean?
    ensures t == NULL_OBJ <==> o.Null?
    ensures t == RETURN_OBJ <==> o.Return?
    ensures t == STRING_OBJ <==> o.String?
    ensures t == FUNCTION_OBJ <==> o.Function?
    ensures t == ERROR_OBJ <==> o.Err?
  {
    match o
    case Integer(_) => INT_OBJ
    case Boolean(_) => BOOL_OBJ
    case Null => NULL_OBJ
    case Return(_) => RETURN_OBJ
    case String(_) => STRING_OBJ
    case Function(_, _, _) => FUNCTION_OBJ
    case Err(_) => ERROR_OBJ
  }

  /** `Inspect()`. */
  function Inspect(o: Object): (s: string)
    ensures o.Integer? ==> |s| > 0 && (s[0] == '-' <==> o.value < 0)
    ensures o.Boolean? ==> (s == "true" <==> o.bvalue) && (s == "false" <==> !o.bvalue)
    ensures o.String? ==> s == o.svalue
    ensures o.Function? ==> |s| >= 3 && s[..3] == "fn("
    ensures o.Err? ==> |s| >= 7 && s[..7] == "ERROR: "
  {
    match o
    case Integer(v) => Numbers.IntToString(v)
    case Boolean(b) => if b then "true" else "false"
    case Null => "null"
    case Return(inner) => Inspect(inner)
    case String(s) => s
    case Function(params, body, _) => "fn(" + ParamsString(params) + ") {\n" + OptBlockString(body) + "\n}"
    case Err(msg) => "ERROR: " + msg
  }

  /** `new Integer(val?)`: the floor of the argument, 0 when it is absent. */
  function NewInteger(val: Option<real>): (o: Object)
    ensures o.Integer?
    ensures val.None? ==> o.value == 0
    ensures val.Some? ==> o.value as real <= val.value < o.value as real + 1.0
  {
    Integer(if val.Some? then val.value.Floor else 0)
  }

  /** `new Boolean(val?)`: false when the argument is absent. */
  function NewBoolean(val: Option<bool>): (o: Object)
    ensures o.Boolean? && o.bvalue == (val.Some? && val.value)
  {
    Boolean(if val.Some? then val.value else false)
  }

  /** `a` and `b` are instances of the same class. */
  predicate SameClass(a: Object, b: Object) {
    a.Integer? == b.Integer? && a.Boolean? == b.Boolean? && a.Null? == b.Null?
    && a.Return? == b.Return? && a.String? == b.String? && a.Function? == b.Function? && a.Err? == b.Err?
  }

  /** Each class answers its own tag, and no two classes share one. */
  lemma TagsIdentifyClasses(a: Object, b: Object)
    ensures TypeOf(a) == TypeOf(b) <==> SameClass(a, b)
  {
  }

  /** The constructor keeps whole numbers as they are. */
  lemma IntegerOfWhole(n: int)
    ensures NewInteger(Some(n as real)) == Integer(n)
  {
  }

  /** Integers inspect as their decimal text, with `-` before the negative ones. */
  lemma IntegerInspects(n: int)
    ensures n >= 0 ==> Inspect(Integer(n)) == Numbers.NatToString(n)
    ensures n < 0 ==> Inspect(Integer(n)) == "-" + Numbers.NatToString(-n)
    ensures Inspect(Integer(n))[0] == '-' <==> n < 0
  {
  }

  /** A returned value inspects as the value itself, however deeply wrapped. */
  lemma {:induction false} ReturnInspectsInner(o: Object)
    ensures Inspect(Return(o)) == Inspect(Unwrapped(o))
    decreases o
  {
    if o.Return? {
      ReturnInspectsInner(o.inner);
    }
  }

  /** The value inside any number of `Return` wrappers. */
  function Unwrapped(o: Object): (v: Object)
    ensures !v.Return?
    decreases o
  {
    if o.Return? then Unwrapped(o.inner) else o
  }

  /** `Environment`: one flat table from names to values, with no outer
      environment. */
  class Environment {
    var store: map<string, Object>

    constructor ()
      ensures store == map[]
    {
      store := map[];
    }

    /** `get(name)`. */
    method Get(name: string) returns (o: Object)
      ensures o == Lookup(store, name)
    {
      if name !in store {
        return Err("identifier not found: " + name);
      }
      return store[name];
    }

    /** `set(name, obj)`. */
    method Set(name: string, obj: Object)
      modifies this
      ensures store == old(store)[name := obj]
    {
      store := store[name := obj];
    }
  }

  /** What `get` answers for a table. */
  function Lookup(store: map<string, Object>, name: string): (o: Object)
    ensures name in store ==> o == store[name]
    ensures name !in store ==> o == Err("identifier not found: " + name)
  {
    if name in store then store[name] else Err("identifier not found: " + name)
  }

  /** After `set(n, v)`, `get(n)` is `v` and every other name answers as before. */
  lemma SetThenGet(store: map<string, Object>, n: string, v: Object, m: string)
    ensures Lookup(store[n := v], n) == v
    ensures m != n ==> Lookup(store[n := v], m) == Lookup(store, m)
  {
  }

  /** A second `set` of the same name overwrites the first. */
  lemma SetOverwrites(store: map<string, Object>, n: string, v: Object, w: Object)
    ensures store[n := v][n := w] == store[n := w]
  {
  }

  /** A name never set is not found, whatever else the table holds; an
      `Err` value stored under it is told apart only by its message. */
  lemma MissingName(store: map<string, Object>, n: string)
    requires n !in store
    ensures Lookup(store, n).Err? && Inspect(Lookup(store, n)) == "ERROR: identifier not found: " + n
  {
  }

  /** `set` then `get` on one environment, as the class does it in place;
      `get` leaves the table as it was. */
  method SetGet(env: Environment, n: string, v: Object, m: string) returns (got: Object, other: Object)
    modifies env
    ensures got == v
    ensures env.store == old(env.store)[n := v]
    ensures m != n ==> other == Lookup(old(env.store), m)
  {
    env.Set(n, v);
    got := env.Get(n);
    other := env.Get(m);
  }
}
