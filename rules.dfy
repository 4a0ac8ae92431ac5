/** The express-validator checks the validation chains use, over a parsed
    request body.

    A standard validator (notEmpty, isLength, isFloat, isInt, isIn, isEmail,
    isISO8601) tests text: `undefined` and `null` read as "", a number reads as
    JavaScript prints it, an object as "[object Object]", and an array is tested
    element by element. A chain runs every one of its checks (there is no
    `bail()`), and each failing check adds one error; `optional()` skips the
    whole chain when the field is `undefined`. */
module Rules {
  import opened Wrappers
  import opened Json
  import JsString

  /** What the model takes as given from JavaScript and validator.js. */
  datatype Oracles = Oracles(
    /** `String(x)` for a number. */
    numberText: real -> string,
    /** The number validator.js `isFloat` reads from a text, None when the text
        is not a float. */
    floatText: string -> Option<real>,
    isEmail: string -> bool,
    isIso8601: string -> bool)

  /** `String(value)` of a value that is not read through an array. An array
      prints its elements joined by commas, with `null` elements empty. */
  function ScalarText(j: Json, o: Oracles): string
    decreases j
  {
    match j
    case Null => ""
    case Bool(b) => if b then "true" else "false"
    case Num(x) => o.numberText(x)
    case Str(s) => s
    case Arr(items) => JoinText(items, o)
    case Obj(_) => "[object Object]"
  }

  function JoinText(items: seq<Json>, o: Oracles): string
    decreases items
  {
    if items == [] then ""
    else if |items| == 1 then ScalarText(items[0], o)
    else ScalarText(items[0], o) + "," + JoinText(items[1..], o)
  }

  /** express-validator's `toString`: a non-empty array reads as its first element. */
  function ValueText(j: Json, o: Oracles): string {
    match j
    case Arr(items) => if items == [] then "" else ScalarText(items[0], o)
    case _ => ScalarText(j, o)
  }

  /** The texts a standard validator tests for a field (None is `undefined`). */
  function Texts(v: Option<Json>, o: Oracles): (r: seq<string>)
    ensures v.None? ==> r == [""]
    ensures v.Some? && !v.value.Arr? ==> r == [ValueText(v.value, o)]
    ensures v.Some? && v.value.Arr? ==> |r| == |v.value.items|
  {
    if v.None? then [""]
    else match v.value
      case Arr(items) => seq(|items|, i requires 0 <= i < |items| => ValueText(items[i], o))
      case _ => [ValueText(v.value, o)]
  }

  predicate NotEmpty(v: Option<Json>, o: Oracles) {
    forall t | t in Texts(v, o) :: t != ""
  }

  /** `isLength({ min, max })`. */
  predicate LengthIn(v: Option<Json>, o: Oracles, min: nat, max: Option<nat>) {
    forall t | t in Texts(v, o) :: min <= |t| && (max.Some? ==> |t| <= max.value)
  }

  predicate FloatTextIn(t: string, o: Oracles, min: Option<real>, max: Option<real>) {
    && o.floatText(t).Some?
    && (min.Some? ==> min.value <= o.floatText(t).value)
    && (max.Some? ==> o.floatText(t).value <= max.value)
  }

  /** `isFloat({ min, max })`. */
  predicate FloatIn(v: Option<Json>, o: Oracles, min: Option<real>, max: Option<real>) {
    forall t | t in Texts(v, o) :: FloatTextIn(t, o, min, max)
  }

  /** `isInt()`: an optional sign and decimal digits. */
  predicate IsInt(v: Option<Json>, o: Oracles) {
    forall t | t in Texts(v, o) :: JsString.IsIntText(t)
  }

  predicate IsIn(v: Option<Json>, o: Oracles, options: seq<string>) {
    forall t | t in Texts(v, o) :: t in options
  }

  predicate IsEmail(v: Option<Json>, o: Oracles) {
    forall t | t in Texts(v, o) :: o.isEmail(t)
  }

  predicate IsIso8601(v: Option<Json>, o: Oracles) {
    forall t | t in Texts(v, o) :: o.isIso8601(t)
  }

  /** `isString()` tests the value itself. */
  predicate IsString(v: Option<Json>) {
    v.Some? && v.value.Str?
  }

  /** The field after the `trim()` sanitizer: every text trimmed, and the value
      turned into a string (an array into an array of strings). */
  function Trimmed(v: Option<Json>, o: Oracles): (r: Json)
    ensures !r.Arr? ==> r == Str(JsString.Trim(if v.Some? then ValueText(v.value, o) else ""))
  {
    if v.Some? && v.value.Arr? then
      var items := v.value.items;
      Arr(seq(|items|, i requires 0 <= i < |items| => Str(JsString.Trim(ValueText(items[i], o)))))
    else Str(JsString.Trim(if v.Some? then ValueText(v.value, o) else ""))
  }

  // ---------------------------------------------------------------------------
  // Errors of a chain

  /** One error: the field and the message (None stands for the message of an
      error the database raised during a custom lookup). */
  datatype Issue = Issue(field: string, message: Option<string>)

  /** One check of a chain with the message `withMessage` attached to it. */
  datatype Check = Check(ok: bool, message: Option<string>)

  /** The message of a check without `withMessage`. */
  const InvalidValue: Option<string> := Some("Invalid value")

  /** The errors a chain on `field` adds: one per failing check, in order. */
  function Failures(field: string, checks: seq<Check>): (r: seq<Issue>)
    ensures r == [] <==> forall i | 0 <= i < |checks| :: checks[i].ok
    ensures forall k | 0 <= k < |r| :: r[k].field == field
    ensures |r| <= |checks|
    decreases |checks|
  {
    if checks == [] then []
    else (if checks[0].ok then [] else [Issue(field, checks[0].message)]) + Failures(field, checks[1..])
  }

  /** The errors of an `optional()` chain: none when the field is `undefined`. */
  function OptionalFailures(field: string, v: Option<Json>, checks: seq<Check>): (r: seq<Issue>)
    ensures v.None? ==> r == []
    ensures v.Some? ==> (r == [] <==> forall i | 0 <= i < |checks| :: checks[i].ok)
  {
    if v.None? then [] else Failures(field, checks)
  }

  /** A failing check's message is among the errors. */
  lemma FailureReported(field: string, checks: seq<Check>, i: int)
    requires 0 <= i < |checks| && !checks[i].ok
    ensures Issue(field, checks[i].message) in Failures(field, checks)
    decreases i
  {
    if i > 0 {
      FailureReported(field, checks[1..], i - 1);
    }
  }

  /** The errors of a chain, check by check. */
  function Reported(field: string, c: Check): seq<Issue> {
    if c.ok then [] else [Issue(field, c.message)]
  }

  /** A chain's errors are those of its first check followed by the rest. */
  lemma {:induction false} FailuresCons(field: string, c: Check, rest: seq<Check>)
    ensures Failures(field, [c] + rest) == Reported(field, c) + Failures(field, rest)
  {
    assert ([c] + rest)[1..] == rest;
  }

  /** A two-check chain's errors, written out. */
  lemma FailuresOfTwo(field: string, a: Check, b: Check)
    ensures Failures(field, [a, b]) == Reported(field, a) + Reported(field, b)
  {
    FailuresCons(field, a, [b]);
    FailuresCons(field, b, []);
    assert [a] + [b] == [a, b];
    assert [b] + [] == [b];
  }

  /** A single text reads as itself. */
  lemma TextOfString(s: string, o: Oracles)
    ensures Texts(Some(Str(s)), o) == [s]
  {
  }
}
