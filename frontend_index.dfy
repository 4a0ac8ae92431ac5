/** The page helpers of index.js: HTML escaping, status badges, the plot
    lookup, the escape-or-raw rule of the plot modal's rows, and the local
    status change after the backend accepts it. DOM and network code are not
    modelled; the backend's answer to the status change is a parameter. */
module FrontIndex {
  import opened Wrappers
  import opened Json
  import JsString
  import P = PlotModel

  // ---------------------------------------------------------------------------
  // escapeHtml

  predicate Special(c: char) {
    c == '&' || c == '<' || c == '>' || c == '"'
  }

  /** The replacement of one character. */
  function Entity(c: char): string {
    if c == '&' then "&amp;"
    else if c == '<' then "&lt;"
    else if c == '>' then "&gt;"
    else if c == '"' then "&quot;"
    else [c]
  }

  /** `escapeHtml`: each of `& < > "` becomes its entity; every other character,
      `'` included, stays. The result holds no `<`, `>` or `"`. */
  function EscapeHtml(s: string): (r: string)
    ensures forall i | 0 <= i < |r| :: r[i] != '<' && r[i] != '>' && r[i] != '"'
    ensures |r| >= |s|
    decreases |s|
  {
    if s == [] then [] else Entity(s[0]) + EscapeHtml(s[1..])
  }

  /** Escaping distributes over concatenation. */
  lemma {:induction false} EscapeConcat(a: string, b: string)
    ensures EscapeHtml(a + b) == EscapeHtml(a) + EscapeHtml(b)
    decreases |a|
  {
    if a == [] {
      assert a + b == b;
    } else {
      assert (a + b)[0] == a[0];
      assert (a + b)[1..] == a[1..] + b;
      EscapeConcat(a[1..], b);
      assert EscapeHtml(a + b) == Entity(a[0]) + EscapeHtml(a[1..] + b);
      assert EscapeHtml(a) == Entity(a[0]) + EscapeHtml(a[1..]);
    }
  }

  /** A string free of the four characters is left as it is. */
  lemma {:induction false} EscapeIdentity(s: string)
    requires forall i | 0 <= i < |s| :: !Special(s[i])
    ensures EscapeHtml(s) == s
    decreases |s|
  {
    if s != [] {
      EscapeIdentity(s[1..]);
      assert s == [s[0]] + s[1..];
    }
  }

  /** Decoding the four entities, the inverse of escaping. */
  function Unescape(s: string): string
    decreases |s|
  {
    if s == [] then []
    else if |s| >= 5 && s[0] == '&' && s[1] == 'a' && s[2] == 'm' && s[3] == 'p' && s[4] == ';' then "&" + Unescape(s[5..])
    else if |s| >= 4 && s[0] == '&' && s[1] == 'l' && s[2] == 't' && s[3] == ';' then "<" + Unescape(s[4..])
    else if |s| >= 4 && s[0] == '&' && s[1] == 'g' && s[2] == 't' && s[3] == ';' then ">" + Unescape(s[4..])
    else if |s| >= 6 && s[0] == '&' && s[1] == 'q' && s[2] == 'u' && s[3] == 'o' && s[4] == 't' && s[5] == ';' then "\"" + Unescape(s[6..])
    else [s[0]] + Unescape(s[1..])
  }

  lemma UnescapeEntity(c: char, t: string)
    ensures Unescape(Entity(c) + t) == [c] + Unescape(t)
  {
    var e := Entity(c);
    var s := e + t;
    assert s[|e|..] == t;
    if c == '&' {
      assert s[0] == '&' && s[1] == 'a' && s[2] == 'm' && s[3] == 'p' && s[4] == ';';
    } else if c == '<' {
      assert s[0] == '&' && s[1] == 'l' && s[2] == 't' && s[3] == ';';
    } else if c == '>' {
      assert s[0] == '&' && s[1] == 'g' && s[2] == 't' && s[3] == ';';
    } else if c == '"' {
      assert s[0] == '&' && s[1] == 'q' && s[2] == 'u' && s[3] == 'o' && s[4] == 't' && s[5] == ';';
    } else {
      assert s[0] == c;
    }
  }

  /** Escaping loses nothing: decoding the entities gives the text back. */
  lemma {:induction false} UnescapeEscape(s: string)
    ensures Unescape(EscapeHtml(s)) == s
    decreases |s|
  {
    if s != [] {
      UnescapeEntity(s[0], EscapeHtml(s[1..]));
      UnescapeEscape(s[1..]);
      assert s == [s[0]] + s[1..];
    }
  }

  /** Escaping is one-to-one. */
  lemma EscapeInjective(a: string, b: string)
    requires EscapeHtml(a) == EscapeHtml(b)
    ensures a == b
  {
    UnescapeEscape(a);
    UnescapeEscape(b);
  }

  // ---------------------------------------------------------------------------
  // status badges

  datatype StatusOption = StatusOption(key: string, caption: string)

  /** `STATUS_VALUES`, the choices of the status dialog. */
  const StatusValues: seq<StatusOption> := [
    StatusOption("white", "Sin sembrar"),
    StatusOption("violet", "Sembrado"),
    StatusOption("blue", "En crecimiento"),
    StatusOption("yellow", "Falta madurar"),
    StatusOption("green", "Listo para cosechar"),
    StatusOption("gray", "Cosechado"),
    StatusOption("red", "Dañado")
  ]

  /** The opening tags of the badge table of `mapStatusToLabel`, in the order
      of `StatusValues`. */
  const Openings: seq<string> := [
    "<span" + " class=\"badge bg-secondary\">",
    "<span" + " class=\"badge\" style=\"background:#7f5bd9\">",
    "<span" + " class=\"badge bg-info text-dark\">",
    "<span" + " class=\"badge bg-warning text-dark\">",
    "<span" + " class=\"badge bg-success\">",
    "<span" + " class=\"badge bg-dark\">",
    "<span" + " class=\"badge bg-danger\">"
  ]

  /** The badge table of `mapStatusToLabel`. */
  function Badge(key: string): Option<string> {
    if key == "white" then Some(Openings[0] + "Sin sembrar" + "</span>")
    else if key == "violet" then Some(Openings[1] + "Sembrado" + "</span>")
    else if key == "blue" then Some(Openings[2] + "En crecimiento" + "</span>")
    else if key == "yellow" then Some(Openings[3] + "Falta madurar" + "</span>")
    else if key == "green" then Some(Openings[4] + "Listo para cosechar" + "</span>")
    else if key == "gray" then Some(Openings[5] + "Cosechado" + "</span>")
    else if key == "red" then Some(Openings[6] + "Dañado" + "</span>")
    else None
  }

  const UnknownBadge: string := "<span" + " class=\"badge bg-light text-dark\">-</span>"

  /** The dialog's keys are exactly the keys that have a badge. */
  lemma StatusValuesMatchBadges(k: string)
    ensures (exists i | 0 <= i < |StatusValues| :: StatusValues[i].key == k) <==> Badge(k).Some?
  {
    if Badge(k).Some? {
      if k == "white" { assert StatusValues[0].key == k; }
      else if k == "violet" { assert StatusValues[1].key == k; }
      else if k == "blue" { assert StatusValues[2].key == k; }
      else if k == "yellow" { assert StatusValues[3].key == k; }
      else if k == "green" { assert StatusValues[4].key == k; }
      else if k == "gray" { assert StatusValues[5].key == k; }
      else { assert StatusValues[6].key == k; }
    }
  }

  /** Each dialog choice's badge shows that choice's caption. */
  lemma BadgesShowCaptions(i: int)
    requires 0 <= i < |StatusValues|
    ensures Badge(StatusValues[i].key) == Some(Openings[i] + StatusValues[i].caption + "</span>")
  {
  }

  /** Every badge of the table, and the unknown one, is a `<span` element. */
  lemma BadgeIsSpan(k: string)
    ensures Badge(k).Some? ==> JsString.StartsWith(Badge(k).value, "<span")
    ensures JsString.StartsWith(UnknownBadge, "<span")
  {
    JsString.StartsWithConcat("<span", UnknownBadge[5..]);
    assert UnknownBadge == "<span" + UnknownBadge[5..];
    if Badge(k).Some? {
      var b := Badge(k).value;
      assert b == "<span" + b[5..] by {
        StatusValuesMatchBadges(k);
        var i :| 0 <= i < |StatusValues| && StatusValues[i].key == k;
        BadgesShowCaptions(i);
        assert Openings[i][..5] == "<span";
      }
      JsString.StartsWithConcat("<span", b[5..]);
    }
  }

  /** `mapStatusToLabel(status)`; None stands for a status that is not a string.
      The label is always a `<span` element; each dialog choice shows its own
      caption in its own opening tag; any other status shows "-". */
  function MapStatusToLabel(status: Option<string>): (r: string)
    ensures JsString.StartsWith(r, "<span")
    ensures forall i | 0 <= i < |StatusValues| ::
      status == Some(StatusValues[i].key) ==> r == Openings[i] + StatusValues[i].caption + "</span>"
    ensures (status.None? || forall i | 0 <= i < |StatusValues| :: StatusValues[i].key != status.value) ==> r == UnknownBadge
  {
    var k := if status.Some? then status.value else "";
    BadgeIsSpan(k);
    StatusValuesMatchBadges(k);
    if status.Some? && Badge(status.value).Some? then Badge(status.value).value else UnknownBadge
  }

  /** Of the plot table's five statuses, `black` has no badge and shows "-". */
  lemma ModelStatusesWithBadges(s: P.PlotStatus)
    ensures Badge(P.StatusText(s)).Some? <==> s != P.Black
    ensures s == P.Black ==> MapStatusToLabel(Some(P.StatusText(s))) == UnknownBadge
  {
  }

  // ---------------------------------------------------------------------------
  // rows of the plot modal

  /** A row value: a JavaScript string, or another value with the text
      `String(value)` gives it. */
  datatype CellValue = JsText(s: string) | Printed(shown: string)

  function Shown(v: CellValue): string {
    if v.JsText? then v.s else v.shown
  }

  /** The row rule as written: a string starting with `<span` is inserted raw,
      anything else escaped. */
  function RowHtml(v: CellValue): (r: string)
    ensures v.JsText? && JsString.StartsWith(v.s, "<span") ==> r == v.s
    ensures !(v.JsText? && JsString.StartsWith(v.s, "<span")) ==> Unescape(r) == Shown(v) && forall i | 0 <= i < |r| :: r[i] != '<'
  {
    UnescapeEscape(Shown(v));
    if v.JsText? && JsString.StartsWith(v.s, "<span") then v.s else EscapeHtml(Shown(v))
  }

  /** The status row shows its badge as markup. */
  lemma StatusRowIsBadge(status: Option<string>)
    ensures RowHtml(JsText(MapStatusToLabel(status))) == MapStatusToLabel(status)
  {
  }

  /** As written, a plot name that starts with `<span` reaches the page as
      markup: this name carries an `<img>` element with an event handler. */
  lemma RawNameInjected()
    ensures var name := "<span" + "><img src=x onerror=alert(1)></span>";
      RowHtml(JsText(name)) == name && name[6] == '<'
  {
    var rest := "><img src=x onerror=alert(1)></span>";
    JsString.StartsWithConcat("<span", rest);
    assert ("<span" + rest)[6] == rest[1] == '<';
  }

  const StatusLabel: string := "Estado"

  /** The rule as intended: only the status row, whose value is always a badge
      built by `mapStatusToLabel`, is inserted raw. */
  function SafeRowHtml(rowLabel: string, v: CellValue): (r: string)
    ensures rowLabel != StatusLabel ==> Unescape(r) == Shown(v) && forall i | 0 <= i < |r| :: r[i] != '<'
  {
    UnescapeEscape(Shown(v));
    if rowLabel == StatusLabel && v.JsText? && JsString.StartsWith(v.s, "<span") then v.s else EscapeHtml(Shown(v))
  }

  /** The corrected rule shows the status badge as markup, and escapes every
      other row, the plot name above included. */
  lemma SafeRowsKeepBadgeOnly(status: Option<string>, rowLabel: string, v: CellValue)
    ensures SafeRowHtml(StatusLabel, JsText(MapStatusToLabel(status))) == MapStatusToLabel(status)
    ensures rowLabel != StatusLabel ==> forall i | 0 <= i < |SafeRowHtml(rowLabel, v)| :: SafeRowHtml(rowLabel, v)[i] != '<'
  {
  }

  // ---------------------------------------------------------------------------
  // the plot list and the status dialog

  /** A plot as the page holds it: only the id and the status matter here. */
  datatype Card = Card(id: int, status: Json)

  /** `plotList.find(p => p.id === id)`, as an index. */
  function FindPlotById(plots: seq<Card>, id: int): (r: Option<nat>)
    ensures r.Some? ==> r.value < |plots| && plots[r.value].id == id && forall j | 0 <= j < r.value :: plots[j].id != id
    ensures r.None? ==> forall j | 0 <= j < |plots| :: plots[j].id != id
    decreases |plots|
  {
    if plots == [] then None
    else if plots[0].id == id then Some(0)
    else match FindPlotById(plots[1..], id)
      case None => None
      case Some(k) => Some(k + 1)
  }

  /** What became of the `PUT` the dialog sends: it failed, or it answered
      with a body whose `status` is given (None is `undefined`). */
  datatype SaveOutcome = Failed | Saved(status: Option<Json>)

  /** The module state `plotList` and `currentPlotForStatus`. */
  class PlotBoard {
    var plots: seq<Card>
    var current: Option<Card>

    constructor ()
      ensures plots == [] && current.None?
    {
      plots := [];
      current := None;
    }

    /** `fetchPlotList` replaces the list. */
    method Refresh(list: seq<Card>)
      modifies this
      ensures plots == list && current == old(current)
    {
      plots := list;
    }

    /** `openStatusModalForPlot`. */
    method OpenStatusModalForPlot(p: Card)
      modifies this
      ensures current == Some(p) && plots == old(plots)
    {
      current := Some(p);
    }

    /** `selectStatus(statusKey)`: once the backend accepts the change, only the
        chosen plot's status changes, to the answer's `status` when truthy and
        to `statusKey` otherwise. */
    method SelectStatus(statusKey: string, outcome: SaveOutcome)
      modifies this
      ensures current == old(current)
      ensures |plots| == |old(plots)|
      ensures old(current).None? || outcome.Failed? || FindPlotById(old(plots), old(current).value.id).None? ==> plots == old(plots)
      ensures old(current).Some? && outcome.Saved? && FindPlotById(old(plots), old(current).value.id).Some? ==>
        var i := FindPlotById(old(plots), old(current).value.id).value;
        && plots == old(plots)[i := Card(old(plots)[i].id, OrElse(outcome.status, Str(statusKey)))]
        && (forall j | 0 <= j < |plots| && j != i :: plots[j] == old(plots)[j])
        && plots[i].id == old(current).value.id
    {
      if current.None? {
        return;
      }
      var found := FindPlotById(plots, current.value.id);
      if found.None? || outcome.Failed? {
        return;
      }
      var i := found.value;
      plots := plots[i := Card(plots[i].id, OrElse(outcome.status, Str(statusKey)))];
    }
  }
}
