/** JSON values as the backend receives them in `req.body`, with JavaScript
    truthiness and the `value || existing` merge the update handlers use. */
module Json {
  import opened Wrappers

  datatype Json =
    | Null
    | Bool(b: bool)
    | Num(x: real)
    | Str(s: string)
    | Arr(items: seq<Json>)
    | Obj(entries: map<string, Json>)

  /** A parsed request body. A key that is absent reads as `undefined`. */
  type Body = map<string, Json>

  /** JavaScript truthiness: `null`, `false`, `0` and `""` are falsy (NaN is not a
      value of the model). */
  predicate Truthy(j: Json) {
    match j
    case Null => false
    case Bool(b) => b
    case Num(x) => x != 0.0
    case Str(s) => s != ""
    case Arr(_) => true
    case Obj(_) => true
  }

  /** `body.key`: None stands for `undefined`. */
  function Field(body: Body, key: string): Option<Json> {
    if key in body then Some(body[key]) else None
  }

  /** `value || existing`. */
  function OrElse(value: Option<Json>, existing: Json): Json {
    if value.Some? && Truthy(value.value) then value.value else existing
  }

  /** The merge keeps the existing value exactly when the supplied one is absent or falsy. */
  lemma OrElseChoice(value: Option<Json>, existing: Json)
    ensures value.Some? && Truthy(value.value) ==> OrElse(value, existing) == value.value
    ensures (value.None? || !Truthy(value.value)) ==> OrElse(value, existing) == existing
  {
  }

  /** `const { a, b } = body; Model.create({ a, b })`: only the picked keys that the
      body defines reach the store (an `undefined` value counts as not given). */
  function Pick(body: Body, keys: set<string>): (r: Body)
    ensures forall k :: k in r <==> k in body && k in keys
    ensures forall k | k in r :: r[k] == body[k]
  {
    map k | k in body && k in keys :: body[k]
  }
}
