/** The pure and stateful helpers of map.js: the status class and style of a
    plot polygon, the choice of the search hit to focus, the suppression of
    repeated error toasts, and the lookup of the layer or marker of a plot.
    Leaflet, fetch, timers and the DOM are not modelled. */
module MapView {
  import opened Wrappers
  import opened Json
  import JsString
  import P = PlotModel

  // ---------------------------------------------------------------------------
  // statusClass / statusStyle

  /** `statusClass(status)`: no class for a missing or empty status, otherwise
      "status-" followed by the status. */
  function StatusClass(status: Option<string>): (r: string)
    ensures r == "" <==> (status.None? || status.value == "")
    ensures status.Some? && status.value != "" ==> JsString.StartsWith(r, "status-") && r[7..] == status.value
  {
    if status.None? || status.value == "" then "" else "status-" + status.value
  }

  /** The colour part of a polygon style. */
  datatype Look = Look(color: string, fillColor: string, fillOpacity: real)

  datatype Style = Style(color: string, weight: int, fillColor: string, fillOpacity: real, className: string)

  const GreenLook := Look("#16a34a", "rgba(34,197,94,0.5)", 0.6)
  const RedLook := Look("#ef4444", "rgba(239,68,68,0.5)", 0.6)
  const YellowLook := Look("#d97706", "rgba(234,179,8,0.5)", 0.6)
  const BlueLook := Look("#2563eb", "rgba(59,130,246,0.5)", 0.6)
  const BlackLook := Look("#111827", "rgba(17,24,39,0.6)", 0.7)
  const DefaultLook := Look("#333", "rgba(100,100,100,0.4)", 0.4)

  /** The `switch` on the lower-cased status. */
  function LookOf(key: string): Look {
    match key
    case "green" => GreenLook
    case "red" => RedLook
    case "yellow" => YellowLook
    case "blue" => BlueLook
    case "black" => BlackLook
    case _ => DefaultLook
  }

  /** `(status || '').toLowerCase()`. */
  function StyleKey(status: Option<string>): string {
    JsString.Lower(if status.Some? then status.value else "")
  }

  /** The colours `map.js` gives each status of the plot table. */
  function TableLook(st: P.PlotStatus): Look {
    match st
    case Green => GreenLook
    case Red => RedLook
    case Yellow => YellowLook
    case Blue => BlueLook
    case Black => BlackLook
  }

  function LookOfStyle(s: Style): Look {
    Look(s.color, s.fillColor, s.fillOpacity)
  }

  /** `statusStyle(status)`: a status of the plot table, in any case, is drawn
      in that status's colours, and every other status (a missing one
      included) in the default colours; the weight is always 1 and the class
      keeps the status as given. */
  function StatusStyle(status: Option<string>): (r: Style)
    ensures r.weight == 1
    ensures r.className == StatusClass(status)
    ensures forall st: P.PlotStatus | status.Some? && JsString.Lower(status.value) == P.StatusText(st) ::
      LookOfStyle(r) == TableLook(st)
    ensures (status.None? || P.ParseStatus(JsString.Lower(status.value)).None?) ==> LookOfStyle(r) == DefaultLook
  {
    var look := LookOf(StyleKey(status));
    Style(look.color, 1, look.fillColor, look.fillOpacity, StatusClass(status))
  }

  /** The colours do not depend on the case of the status. */
  lemma StyleIgnoresCase(s: string)
    ensures LookOfStyle(StatusStyle(Some(s))) == LookOfStyle(StatusStyle(Some(JsString.Lower(s))))
  {
    JsString.LowerIdempotent(s);
  }

  /** Every status the plot model stores has a colour of its own; the five
      colours are pairwise different. */
  lemma ModelStatusesStyled(st: P.PlotStatus, other: P.PlotStatus)
    ensures TableLook(st) != DefaultLook
    ensures st != other ==> TableLook(st) != TableLook(other)
  {
  }

  /** The statuses only the front end names, and a missing status, get the
      default style. */
  lemma FrontOnlyStatusesUnstyled()
    ensures LookOfStyle(StatusStyle(Some("white"))) == DefaultLook
    ensures LookOfStyle(StatusStyle(Some("violet"))) == DefaultLook
    ensures LookOfStyle(StatusStyle(Some("gray"))) == DefaultLook
    ensures StatusStyle(None) == Style("#333", 1, "rgba(100,100,100,0.4)", 0.4, "")
  {
    assert JsString.Lower("white") == "white";
    assert JsString.Lower("violet") == "violet";
    assert JsString.Lower("gray") == "gray";
    assert JsString.Lower("") == "";
  }

  // ---------------------------------------------------------------------------
  // focusOnQueryResult

  /** A search hit; each text is `String(field || '')` of the hit. */
  datatype Item = Item(code: string, ownerName: string, name: string, id: Json)

  /** `data.find(matches)`, as the index of the first hit that matches. */
  function First(data: seq<Item>, matches: Item -> bool): (r: Option<nat>)
    ensures r.Some? ==> r.value < |data| && matches(data[r.value])
    ensures r.Some? ==> forall j | 0 <= j < r.value :: !matches(data[j])
    ensures r.None? ==> forall j | 0 <= j < |data| :: !matches(data[j])
    decreases |data|
  {
    if data == [] then None
    else if matches(data[0]) then Some(0)
    else
      var rest := First(data[1..], matches);
      assert forall j | 1 <= j < |data| :: data[j] == data[1..][j - 1];
      if rest.Some? then Some(rest.value + 1) else None
  }

  predicate CodeMatches(d: Item, q: string) { JsString.Lower(d.code) == q }
  predicate OwnerMatches(d: Item, q: string) { JsString.Contains(JsString.Lower(d.ownerName), q) }
  predicate NameMatches(d: Item, q: string) { JsString.Contains(JsString.Lower(d.name), q) }

  /** `String(query).toLowerCase().trim()`. */
  function Query(query: string): string {
    JsString.Trim(JsString.Lower(query))
  }

  /** The index of the hit `focusOnQueryResult` focuses: nothing for an empty
      query or no hits; otherwise the first exact code match, else the first
      owner containing the query, else the first name containing it, else the
      first hit. */
  function FocusTarget(query: Option<string>, data: seq<Item>): (r: Option<nat>)
    ensures r.None? <==> (query.None? || query.value == "" || data == [])
    ensures r.Some? ==> r.value < |data|
  {
    if query.None? || query.value == "" || data == [] then None
    else
      var q := Query(query.value);
      var byCode := First(data, d => CodeMatches(d, q));
      if byCode.Some? then byCode
      else
        var byOwner := First(data, d => OwnerMatches(d, q));
        if byOwner.Some? then byOwner
        else
          var byName := First(data, d => NameMatches(d, q));
          if byName.Some? then byName else Some(0)
  }

  /** The order of preference, stated over the hits themselves. */
  lemma FocusPreference(query: string, data: seq<Item>)
    requires query != "" && data != []
    ensures var r := FocusTarget(Some(query), data); var q := Query(query);
      r.Some? && r.value < |data| &&
      ((exists i | 0 <= i < |data| :: CodeMatches(data[i], q)) ==>
        CodeMatches(data[r.value], q) && forall j | 0 <= j < r.value :: !CodeMatches(data[j], q))
    ensures var r := FocusTarget(Some(query), data); var q := Query(query);
      (forall i | 0 <= i < |data| :: !CodeMatches(data[i], q)) && (exists i | 0 <= i < |data| :: OwnerMatches(data[i], q)) ==>
        OwnerMatches(data[r.value], q) && forall j | 0 <= j < r.value :: !OwnerMatches(data[j], q)
    ensures var r := FocusTarget(Some(query), data); var q := Query(query);
      (forall i | 0 <= i < |data| :: !CodeMatches(data[i], q) && !OwnerMatches(data[i], q)) && (exists i | 0 <= i < |data| :: NameMatches(data[i], q)) ==>
        NameMatches(data[r.value], q) && forall j | 0 <= j < r.value :: !NameMatches(data[j], q)
    ensures var r := FocusTarget(Some(query), data); var q := Query(query);
      (forall i | 0 <= i < |data| :: !CodeMatches(data[i], q) && !OwnerMatches(data[i], q) && !NameMatches(data[i], q)) ==>
        r == Some(0)
  {
    var q := Query(query);
    var byCode := First(data, d => CodeMatches(d, q));
    var byOwner := First(data, d => OwnerMatches(d, q));
    var byName := First(data, d => NameMatches(d, q));
    assert forall j | 0 <= j < |data| :: (d => CodeMatches(d, q))(data[j]) == CodeMatches(data[j], q);
    assert forall j | 0 <= j < |data| :: (d => OwnerMatches(d, q))(data[j]) == OwnerMatches(data[j], q);
    assert forall j | 0 <= j < |data| :: (d => NameMatches(d, q))(data[j]) == NameMatches(data[j], q);
  }

  /** A query of blanks only matches every owner, so it focuses the first hit
      without a code, else the very first hit. */
  lemma BlankQueryFocusesFirst(data: seq<Item>)
    requires data != []
    ensures FocusTarget(Some(" "), data).Some?
    ensures var r := FocusTarget(Some(" "), data).value;
      r == 0 || (data[r].code == "" && forall j | 0 <= j < r :: data[j].code != "")
  {
    assert JsString.Lower(" ") == " ";
    assert JsString.TrimStart(" ") == "";
    assert Query(" ") == "";
    JsString.ContainsEmpty(JsString.Lower(data[0].ownerName));
    assert OwnerMatches(data[0], "");
    forall j | 0 <= j < |data|
      ensures CodeMatches(data[j], "") <==> data[j].code == ""
    {
      assert |JsString.Lower(data[j].code)| == |data[j].code|;
    }
    FocusPreference(" ", data);
  }

  // ---------------------------------------------------------------------------
  // error toasts

  /** The text of the toast for a failed load. */
  function ToastText(errMessage: string): string {
    "No se pudieron cargar parcelas: " + errMessage
  }

  const SuppressWindow: int := 5000

  /** A toast is shown unless the same text was shown at most five seconds ago. */
  predicate ShouldShow(lastMsg: Option<string>, lastTime: int, msg: string, now: int) {
    lastMsg != Some(msg) || now - lastTime > SuppressWindow
  }

  /** `lastFetchError` and the test around `showToast`. */
  class ErrorToastGate {
    var lastMsg: Option<string>
    var lastTime: int

    constructor()
      ensures lastMsg == None && lastTime == 0
    {
      lastMsg := None;
      lastTime := 0;
    }

    /** Reports a failed load at time `now`; the remembered toast changes only
        when a toast is shown. */
    method Report(errMessage: string, now: int) returns (shown: bool)
      modifies this
      ensures shown == ShouldShow(old(lastMsg), old(lastTime), ToastText(errMessage), now)
      ensures shown ==> lastMsg == Some(ToastText(errMessage)) && lastTime == now
      ensures !shown ==> lastMsg == old(lastMsg) && lastTime == old(lastTime)
    {
      var msg := ToastText(errMessage);
      shown := lastMsg != Some(msg) || now - lastTime > SuppressWindow;
      if shown {
        lastMsg := Some(msg);
        lastTime := now;
      }
    }
  }

  /** The first error is always shown; after a toast for one error, the same
      error within five seconds is suppressed, while a different error, or the
      same one later, is shown. */
  lemma ToastSuppression(e: string, other: string, t: int, later: int)
    ensures ShouldShow(None, 0, ToastText(e), t)
    ensures later - t <= SuppressWindow ==> !ShouldShow(Some(ToastText(e)), t, ToastText(e), later)
    ensures later - t > SuppressWindow ==> ShouldShow(Some(ToastText(e)), t, ToastText(e), later)
    ensures other != e ==> ShouldShow(Some(ToastText(e)), t, ToastText(other), later)
  {
    if other != e {
      var prefix := "No se pudieron cargar parcelas: ";
      assert ToastText(e)[|prefix|..] == e;
      assert ToastText(other)[|prefix|..] == other;
    }
  }

  // ---------------------------------------------------------------------------
  // findPolygonLayerById / findMarkerById

  /** A polygon layer: `properties` is None when the layer has no feature or
      the feature has no properties. */
  datatype PolygonLayer = PolygonLayer(properties: Option<Body>)

  /** A point marker with its `plotId`. */
  datatype MarkerLayer = MarkerLayer(plotId: Option<Json>)

  /** `Number(a) === Number(b)`; `toNumber` is `Number()`, None standing for NaN. */
  predicate SameNumber(a: Option<Json>, b: Option<Json>, toNumber: Option<Json> -> Option<real>) {
    toNumber(a).Some? && toNumber(a) == toNumber(b)
  }

  predicate PolygonMatches(layer: PolygonLayer, id: Option<Json>, toNumber: Option<Json> -> Option<real>) {
    layer.properties.Some? && SameNumber(Field(layer.properties.value, "id"), id, toNumber)
  }

  predicate MarkerMatches(layer: MarkerLayer, id: Option<Json>, toNumber: Option<Json> -> Option<real>) {
    layer.plotId.Some? && Truthy(layer.plotId.value) && SameNumber(layer.plotId, id, toNumber)
  }

  /** `findPolygonLayerById(id)`: every layer is visited and the last one that
      matches is kept. */
  method FindPolygonLayerById(layers: seq<PolygonLayer>, id: Option<Json>, toNumber: Option<Json> -> Option<real>)
    returns (found: Option<nat>)
    ensures found.Some? ==> found.value < |layers| && PolygonMatches(layers[found.value], id, toNumber)
    ensures found.Some? ==> forall j | found.value < j < |layers| :: !PolygonMatches(layers[j], id, toNumber)
    ensures found.None? ==> forall j | 0 <= j < |layers| :: !PolygonMatches(layers[j], id, toNumber)
  {
    found := None;
    var i := 0;
    while i < |layers|
      invariant 0 <= i <= |layers|
      invariant found.Some? ==> found.value < i && PolygonMatches(layers[found.value], id, toNumber)
      invariant found.Some? ==> forall j | found.value < j < i :: !PolygonMatches(layers[j], id, toNumber)
      invariant found.None? ==> forall j | 0 <= j < i :: !PolygonMatches(layers[j], id, toNumber)
    {
      if PolygonMatches(layers[i], id, toNumber) {
        found := Some(i);
      }
      i := i + 1;
    }
  }

  /** `findMarkerById(id)`: as for polygons, the last matching marker is kept. */
  method FindMarkerById(markers: seq<MarkerLayer>, id: Option<Json>, toNumber: Option<Json> -> Option<real>)
    returns (found: Option<nat>)
    ensures found.Some? ==> found.value < |markers| && MarkerMatches(markers[found.value], id, toNumber)
    ensures found.Some? ==> forall j | found.value < j < |markers| :: !MarkerMatches(markers[j], id, toNumber)
    ensures found.None? ==> forall j | 0 <= j < |markers| :: !MarkerMatches(markers[j], id, toNumber)
  {
    found := None;
    var i := 0;
    while i < |markers|
      invariant 0 <= i <= |markers|
      invariant found.Some? ==> found.value < i && MarkerMatches(markers[found.value], id, toNumber)
      invariant found.Some? ==> forall j | found.value < j < i :: !MarkerMatches(markers[j], id, toNumber)
      invariant found.None? ==> forall j | 0 <= j < i :: !MarkerMatches(markers[j], id, toNumber)
    {
      if MarkerMatches(markers[i], id, toNumber) {
        found := Some(i);
      }
      i := i + 1;
    }
  }

  /** An id that is not a number (NaN) finds no layer and no marker. */
  lemma NaNFindsNothing(layer: PolygonLayer, marker: MarkerLayer, id: Option<Json>, toNumber: Option<Json> -> Option<real>)
    requires toNumber(id).None?
    ensures !PolygonMatches(layer, id, toNumber)
    ensures !MarkerMatches(marker, id, toNumber)
  {
  }
}
