/** The display helpers of dashboard.js: the date formatter, the status name and
    colour lookups with their fallbacks, the owner-name fallback chain and the
    grid's row count. The demo data and the DOM rendering are not modelled. */
module Dashboard {
  import opened Wrappers
  import opened Json
  import JsString
  import Rules
  import FrontIndex

  // ---------------------------------------------------------------------------
  // fmt

  /** `fmt(d)`: "-" for a falsy value; otherwise the first three dash-separated
      pieces of `String(d)` as day/month/year, or `d` itself when one of them
      is missing or empty. */
  function Fmt(d: Option<Json>, o: Rules.Oracles): (r: Json)
    ensures !(d.Some? && Truthy(d.value)) ==> r == Str("-")
    ensures r.Str? || (d.Some? && r == d.value)
  {
    if !(d.Some? && Truthy(d.value)) then Str("-")
    else
      var parts := JsString.Split(Rules.ScalarText(d.value, o), '-');
      if |parts| < 3 || parts[0] == "" || parts[1] == "" || parts[2] == "" then d.value
      else Str(parts[2] + "/" + parts[1] + "/" + parts[0])
  }

  predicate DashFree(s: string) {
    '-' !in s
  }

  lemma SplitThree(y: string, m: string, day: string, rest: string)
    requires DashFree(y) && DashFree(m) && DashFree(day)
    ensures JsString.Split(y + "-" + m + "-" + day + rest, '-') == [y, m] + JsString.Split(day + rest, '-')
  {
    var s := y + "-" + m + "-" + day + rest;
    assert s == y + ['-'] + (m + ['-'] + (day + rest));
    JsString.SplitPiece(y, m + ['-'] + (day + rest), '-');
    JsString.SplitPiece(m, day + rest, '-');
  }

  /** A "y-m-d" date is shown as "d/m/y". */
  lemma {:induction false} FmtRewrites(y: string, m: string, day: string, o: Rules.Oracles)
    requires y != "" && m != "" && day != "" && DashFree(y) && DashFree(m) && DashFree(day)
    ensures Fmt(Some(Str(y + "-" + m + "-" + day)), o) == Str(day + "/" + m + "/" + y)
  {
    SplitThree(y, m, day, "");
    assert y + "-" + m + "-" + day + "" == y + "-" + m + "-" + day;
    assert day + "" == day;
    JsString.SplitPrefix(day, "", '-');
  }

  /** Pieces after the third are ignored. */
  lemma {:induction false} FmtIgnoresRest(y: string, m: string, day: string, rest: string, o: Rules.Oracles)
    requires y != "" && m != "" && day != "" && DashFree(y) && DashFree(m) && DashFree(day)
    ensures Fmt(Some(Str(y + "-" + m + "-" + day + "-" + rest)), o) == Str(day + "/" + m + "/" + y)
  {
    SplitThree(y, m, day, "-" + rest);
    assert y + "-" + m + "-" + day + "-" + rest == y + "-" + m + "-" + day + ("-" + rest);
    assert day + ("-" + rest) == day + ['-'] + rest;
    JsString.SplitPiece(day, rest, '-');
  }

  /** A text with no dash has a single piece and is returned unchanged. */
  lemma {:induction false} FmtNoDash(s: string, o: Rules.Oracles)
    requires s != "" && DashFree(s)
    ensures Fmt(Some(Str(s)), o) == Str(s)
  {
    JsString.SplitPrefix(s, "", '-');
    assert s + "" == s;
  }

  /** A text with an empty piece among the first three is returned unchanged. */
  lemma {:induction false} FmtEmptyMonth(y: string, rest: string, o: Rules.Oracles)
    requires y != "" && DashFree(y)
    ensures Fmt(Some(Str(y + "--" + rest)), o) == Str(y + "--" + rest)
  {
    assert y + "--" + rest == y + ['-'] + ("" + ['-'] + rest);
    JsString.SplitPiece(y, "" + ['-'] + rest, '-');
    JsString.SplitPiece("", rest, '-');
  }

  /** The converse of the lemmas above: a text that `fmt` changes has the shape
      y-m-d, with y, m and d non-empty and free of dashes, possibly followed by
      more dash-separated pieces, and is shown as d/m/y. Any other text (an
      empty year, month or day, or fewer than three pieces) comes back as it
      was. */
  lemma {:induction false} FmtChangedIsDate(s: string, o: Rules.Oracles) returns (y: string, m: string, day: string, rest: string)
    requires s != "" && Fmt(Some(Str(s)), o) != Str(s)
    ensures y != "" && m != "" && day != "" && DashFree(y) && DashFree(m) && DashFree(day)
    ensures rest == "" || rest[0] == '-'
    ensures s == y + "-" + m + "-" + day + rest
    ensures Fmt(Some(Str(s)), o) == Str(day + "/" + m + "/" + y)
  {
    var p := JsString.Split(s, '-');
    JsString.JoinSplit(s, '-');
    assert |p| >= 3 && p[0] != "" && p[1] != "" && p[2] != "";
    y, m, day := p[0], p[1], p[2];
    rest := if |p| == 3 then "" else "-" + JsString.Join(p[3..], '-');
    assert p[1..][1..] == p[2..];
    assert p[2..][0] == day;
    assert |p| > 3 ==> p[2..][1..] == p[3..];
    assert JsString.Join(p[2..], '-') == day + rest;
    assert JsString.Join(p[1..], '-') == m + "-" + (day + rest);
    assert s == y + "-" + (m + "-" + (day + rest));
  }

  // ---------------------------------------------------------------------------
  // fallbacks

  /** `a || b || ... || fallback`: the first truthy value, else the fallback. */
  function FirstTruthy(values: seq<Option<Json>>, fallback: Json): (r: Json)
    ensures (forall i | 0 <= i < |values| :: !(values[i].Some? && Truthy(values[i].value))) ==> r == fallback
    ensures (exists i | 0 <= i < |values| :: values[i].Some? && Truthy(values[i].value)) ==>
      exists i | 0 <= i < |values| :: values[i].Some? && Truthy(values[i].value) && r == values[i].value
        && forall j | 0 <= j < i :: !(values[j].Some? && Truthy(values[j].value))
    decreases |values|
  {
    if values == [] then fallback
    else if values[0].Some? && Truthy(values[0].value) then values[0].value
    else
      var r := FirstTruthy(values[1..], fallback);
      assert forall i | 1 <= i < |values| :: values[i] == values[1..][i - 1];
      r
  }

  /** `statusName[p.status]`: None for a status with no name. A status that is
      not a string is read as having none. */
  function NameOf(status: Option<Json>): Option<Json> {
    if !(status.Some? && status.value.Str?) then None
    else match status.value.s
      case "white" => Some(Str("Sin sembrar"))
      case "violet" => Some(Str("Sembrado"))
      case "blue" => Some(Str("En crecimiento"))
      case "yellow" => Some(Str("Falta madurar"))
      case "green" => Some(Str("Listo para cosechar"))
      case "gray" => Some(Str("Cosechado"))
      case "red" => Some(Str("Dañado"))
      case _ => None
  }

  /** `statusColor[p.status]`. */
  function ColorOf(status: Option<Json>): Option<Json> {
    if !(status.Some? && status.value.Str?) then None
    else match status.value.s
      case "white" => Some(Str("#ffffff"))
      case "violet" => Some(Str("#8b5cf6"))
      case "blue" => Some(Str("#3b82f6"))
      case "yellow" => Some(Str("#eab308"))
      case "green" => Some(Str("#22c55e"))
      case "gray" => Some(Str("#6b7280"))
      case "red" => Some(Str("#ef4444"))
      case _ => None
  }

  function StatusName(status: Option<Json>): Json {
    FirstTruthy([NameOf(status), status], Str("—"))
  }

  function StatusColor(status: Option<Json>): Json {
    FirstTruthy([ColorOf(status)], Str("#fff"))
  }

  /** `p.owner?.username || p.owner?.email || p.user?.username || '—'`. */
  function OwnerName(ownerUsername: Option<Json>, ownerEmail: Option<Json>, userUsername: Option<Json>): Json {
    FirstTruthy([ownerUsername, ownerEmail, userUsername], Str("—"))
  }

  /** The status name is the named status's caption, else the raw status when
      truthy, else "—"; the colour falls back to "#fff". */
  lemma StatusFallbacks(status: Option<Json>)
    ensures NameOf(status).Some? ==> StatusName(status) == NameOf(status).value
    ensures NameOf(status).None? && status.Some? && Truthy(status.value) ==> StatusName(status) == status.value
    ensures NameOf(status).None? && !(status.Some? && Truthy(status.value)) ==> StatusName(status) == Str("—")
    ensures ColorOf(status).Some? ==> StatusColor(status) == ColorOf(status).value
    ensures ColorOf(status).None? ==> StatusColor(status) == Str("#fff")
  {
    var values := [NameOf(status), status];
    assert values[0] == NameOf(status) && values[1] == status;
    assert [ColorOf(status)][0] == ColorOf(status);
  }

  /** The owner name is the first truthy of the three, else "—". */
  lemma OwnerFallbacks(a: Option<Json>, b: Option<Json>, c: Option<Json>)
    ensures a.Some? && Truthy(a.value) ==> OwnerName(a, b, c) == a.value
    ensures !(a.Some? && Truthy(a.value)) && b.Some? && Truthy(b.value) ==> OwnerName(a, b, c) == b.value
    ensures !(a.Some? && Truthy(a.value)) && !(b.Some? && Truthy(b.value)) && c.Some? && Truthy(c.value) ==> OwnerName(a, b, c) == c.value
    ensures !(a.Some? && Truthy(a.value)) && !(b.Some? && Truthy(b.value)) && !(c.Some? && Truthy(c.value)) ==> OwnerName(a, b, c) == Str("—")
  {
    var values := [a, b, c];
    assert values[0] == a && values[1] == b && values[2] == c;
  }

  /** The dashboard names the same seven statuses as the status dialog of
      index.js, with the same captions. */
  lemma NamesMatchDialog(i: int)
    requires 0 <= i < |FrontIndex.StatusValues|
    ensures NameOf(Some(Str(FrontIndex.StatusValues[i].key))) == Some(Str(FrontIndex.StatusValues[i].caption))
    ensures ColorOf(Some(Str(FrontIndex.StatusValues[i].key))).Some?
  {
  }

  // ---------------------------------------------------------------------------
  // grid

  const GridColumns: nat := 16

  /** `Math.ceil(n / 16)`: the fewest rows of 16 that hold `n` tiles. */
  function GridRows(n: nat): (r: nat)
    ensures r * GridColumns >= n
    ensures r == 0 || (r - 1) * GridColumns < n
  {
    (n + GridColumns - 1) / GridColumns
  }
}
