/** JavaScript values as the backend and the frontend see them: JSON-shaped data,
    with `undefined` kept apart from `null` by wrapping a possibly absent value in
    an `Option`. */
module Js {

  datatype Option<+T> = None | Some(value: T)

  /** A JSON-shaped JavaScript value. Numbers are integers in this model. */
  datatype Value =
    | Null
    | Bool(b: bool)
    | Num(n: int)
    | Str(s: string)
    | Arr(items: seq<Value>)
    | Obj(fields: map<string, Value>)

  /** JavaScript truthiness of a possibly `undefined` value: `undefined`, `null`,
      `false`, `0` and `""` are falsy, everything else (arrays and objects
      included, even empty ones) is truthy. */
  predicate Truthy(v: Option<Value>) {
    match v
    case None => false
    case Some(Null) => false
    case Some(Bool(b)) => b
    case Some(Num(n)) => n != 0
    case Some(Str(s)) => s != ""
    case Some(_) => true
  }

  /** `undefined` or `null`: the values `?.` and `??` react to. */
  predicate Nullish(v: Option<Value>) {
    v == None || v == Some(Null)
  }

  /** `v[k]` on a value that is not nullish: only objects carry own properties here. */
  function Prop(v: Value, k: string): Option<Value> {
    if v.Obj? && k in v.fields then Some(v.fields[k]) else None
  }

  /** `v?.[k]`: `undefined` when `v` is nullish, the property otherwise. */
  function OptProp(v: Option<Value>, k: string): Option<Value> {
    if v.Some? then Prop(v.value, k) else None
  }

  /** `v.hasOwnProperty(k)`. */
  predicate HasOwn(v: Value, k: string) {
    v.Obj? && k in v.fields
  }

  /** `a ?? b`. */
  function Coalesce(a: Option<Value>, b: Value): (r: Value)
    ensures !Nullish(a) ==> Some(r) == a
    ensures Nullish(a) ==> r == b
  {
    if Nullish(a) then b else a.value
  }

  /** The settled outcome of an awaited HTTP request made by the frontend's API
      client: the response's `data` (possibly `undefined`), or a rejection. */
  datatype Fetch = Fetched(data: Option<Value>) | Rejected
}
