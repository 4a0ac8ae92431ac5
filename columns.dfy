/** How a column accepts a JSON value written to it, shared by the three tables.

    Every column accepts only a JSON value of its own kind: a string for a text
    or date column, a string of at most n characters for a `CHAR(n)` or
    `STRING(n)` column, a number for a float column, an integral number within
    the 32-bit range for an integer column, a boolean for a boolean column, a
    listed string for an enum, an object for the geometry column, and `null` for
    a nullable column. So a value a column accepts is stored as given, and the
    JSON view of the stored record shows it unchanged. */
module Columns {
  import opened Wrappers
  import opened Json

  /** The range of an `INTEGER` column: 32-bit two's complement. */
  const IntMin: int := -0x8000_0000
  const IntMax: int := 0x7FFF_FFFF

  predicate InIntRange(n: int) {
    IntMin <= n <= IntMax
  }

  /** The integer an `INTEGER` column stores for `j`: an integral number in range. */
  function AsInt(j: Json): (r: Option<int>)
    ensures r.Some? <==> j.Num? && j.x == j.x.Floor as real && InIntRange(j.x.Floor)
    ensures r.Some? ==> r.value as real == j.x
  {
    if j.Num? && j.x == j.x.Floor as real && InIntRange(j.x.Floor) then Some(j.x.Floor) else None
  }

  /** A `CHAR(n)` or `STRING(n)` column takes a string of at most n characters. */
  predicate Fits(j: Json, cap: nat) {
    j.Str? && |j.s| <= cap
  }

  function NullableText(j: Json): Option<Option<string>> {
    if j == Null then Some(None) else if j.Str? then Some(Some(j.s)) else None
  }

  function NullableReal(j: Json): Option<Option<real>> {
    if j == Null then Some(None) else if j.Num? then Some(Some(j.x)) else None
  }

  function NullableInt(j: Json): Option<Option<int>> {
    if j == Null then Some(None) else if AsInt(j).Some? then Some(AsInt(j)) else None
  }

  function TextOrNull(v: Option<string>): Json {
    if v.Some? then Str(v.value) else Null
  }

  function RealOrNull(v: Option<real>): Json {
    if v.Some? then Num(v.value) else Null
  }

  function IntOrNull(v: Option<int>): Json {
    if v.Some? then Num(v.value as real) else Null
  }

  /** A nullable column shows `null` for no value and reads `null` back as no value. */
  lemma NullableRoundTrip(t: Option<string>, x: Option<real>, n: Option<int>)
    requires n.Some? ==> InIntRange(n.value)
    ensures NullableText(TextOrNull(t)) == Some(t)
    ensures NullableReal(RealOrNull(x)) == Some(x)
    ensures NullableInt(IntOrNull(n)) == Some(n)
  {
    if n.Some? {
      assert (n.value as real).Floor == n.value;
    }
  }

  // Attribute `key` of a write, one function per column kind: Some(None) when the
  // body does not name it, Some(Some(v)) when the column accepts the named value
  // as v, None when the column rejects it (the write then fails as a whole).

  function TakeText(body: Body, key: string): Option<Option<string>> {
    if key !in body then Some(None) else if body[key].Str? then Some(Some(body[key].s)) else None
  }

  function TakeCapped(body: Body, key: string, cap: nat): Option<Option<string>> {
    if key !in body then Some(None) else if Fits(body[key], cap) then Some(Some(body[key].s)) else None
  }

  function TakeReal(body: Body, key: string): Option<Option<real>> {
    if key !in body then Some(None) else if body[key].Num? then Some(Some(body[key].x)) else None
  }

  function TakeInt(body: Body, key: string): Option<Option<int>> {
    if key !in body then Some(None) else if AsInt(body[key]).Some? then Some(AsInt(body[key])) else None
  }

  function TakeBool(body: Body, key: string): Option<Option<bool>> {
    if key !in body then Some(None) else if body[key].Bool? then Some(Some(body[key].b)) else None
  }

  function TakeGeometry(body: Body, key: string): Option<Option<Json>> {
    if key !in body then Some(None) else if body[key].Obj? then Some(Some(body[key])) else None
  }

  function TakeNullableText(body: Body, key: string): Option<Option<Option<string>>> {
    if key !in body then Some(None)
    else if NullableText(body[key]).Some? then Some(NullableText(body[key])) else None
  }

  function TakeNullableCapped(body: Body, key: string, cap: nat): Option<Option<Option<string>>> {
    if key !in body then Some(None)
    else if body[key] == Null then Some(Some(None))
    else if Fits(body[key], cap) then Some(Some(Some(body[key].s))) else None
  }

  function TakeNullableReal(body: Body, key: string): Option<Option<Option<real>>> {
    if key !in body then Some(None)
    else if NullableReal(body[key]).Some? then Some(NullableReal(body[key])) else None
  }

  function TakeNullableInt(body: Body, key: string): Option<Option<Option<int>>> {
    if key !in body then Some(None)
    else if NullableInt(body[key]).Some? then Some(NullableInt(body[key])) else None
  }

  function GetOr<T>(v: Option<T>, default: T): T {
    if v.Some? then v.value else default
  }
}
