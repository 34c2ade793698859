/** JSON values as Express hands them to handlers (`req.body`, `req.query`),
    with the two JavaScript notions the handlers rely on: truthiness
    (`if (skills)`) and the type name a value reports. Numbers are integers. */
module Json {
  import opened Common

  datatype Value =
    | Null
    | Bool(b: bool)
    | Num(n: int)
    | Str(s: string)
    | Arr(items: seq<Value>)
    | Obj(fields: map<string, Value>)

  /** `obj[key]`: `None` stands for `undefined`. */
  function Get(m: map<string, Value>, key: string): (r: Option<Value>)
    ensures r.Some? <==> key in m
    ensures r.Some? ==> r.value == m[key]
  {
    if key in m then Some(m[key]) else None
  }

  /** JavaScript truthiness of a possibly-undefined value: `undefined`,
      `null`, `false`, `0` and `""` are falsy; arrays and objects, even
      empty ones, are truthy. */
  predicate Truthy(v: Option<Value>) {
    match v
    case None => false
    case Some(Null) => false
    case Some(Bool(b)) => b
    case Some(Num(n)) => n != 0
    case Some(Str(s)) => s != ""
    case Some(Arr(_)) => true
    case Some(Obj(_)) => true
  }

  /** The type name zod reports for a received value. */
  function TypeName(v: Option<Value>): string {
    match v
    case None => "undefined"
    case Some(Null) => "null"
    case Some(Bool(_)) => "boolean"
    case Some(Num(_)) => "number"
    case Some(Str(_)) => "string"
    case Some(Arr(_)) => "array"
    case Some(Obj(_)) => "object"
  }
}
