/** The express-validator chains of plot.validations.js, as the list of errors
    each one yields for a request. The `validator` middleware that turns a
    non-empty list into a response is not part of this model; a request passes
    when the list is empty. */
module PlotValidation {
  import opened Wrappers
  import opened Json
  import opened Rules
  import opened Store
  import JsString
  import P = PlotModel
  import U = UserModel
  import PlotController

  const IdNotInteger: Option<string> := Some("Id must be an integer")
  const PlotNotFound: Option<string> := Some("Plot not found")
  const OwnerNotFound: Option<string> := Some("Owner not found")

  /** The custom check on the path id: `findByPk(value)`, then `!plot || plot.deleted`.
      A lookup that throws reports the database's own message. */
  function PlotExists(plots: map<int, P.Plot>, idText: string): (r: Check)
    ensures r.ok <==> PathId(idText).Some? && LivePlot(plots, PathId(idText).value)
  {
    match PkLookup(Some(Str(idText)))
    case LookupThrows => Check(false, None)
    case NotFound => Check(false, PlotNotFound)
    case Found(id) => Check(LivePlot(plots, id), PlotNotFound)
  }

  /** The custom check on `ownerId`: the user it names exists and is not soft-deleted. */
  function OwnerExists(users: map<int, U.User>, v: Option<Json>): (r: Check)
    ensures r.ok <==> PkLookup(v).Found? && LiveUser(users, PkLookup(v).id)
  {
    match PkLookup(v)
    case LookupThrows => Check(false, None)
    case NotFound => Check(false, OwnerNotFound)
    case Found(id) => Check(LiveUser(users, id), OwnerNotFound)
  }

  /** `param("id").isInt().withMessage(...).custom(...)`, shared by get, update and delete. */
  function IdIssues(plots: map<int, P.Plot>, idText: string, o: Oracles): seq<Issue> {
    Failures("id", [Check(IsInt(Some(Str(idText)), o), IdNotInteger), PlotExists(plots, idText)])
  }

  function GetPlotIssues(plots: map<int, P.Plot>, idText: string, o: Oracles): seq<Issue> {
    IdIssues(plots, idText, o)
  }

  function DeletePlotIssues(plots: map<int, P.Plot>, idText: string, o: Oracles): seq<Issue> {
    IdIssues(plots, idText, o)
  }

  /** Get and delete pass exactly for the integer id of a live plot. */
  lemma IdPassesExactly(plots: map<int, P.Plot>, idText: string, o: Oracles)
    ensures GetPlotIssues(plots, idText, o) == [] <==> PathId(idText).Some? && LivePlot(plots, PathId(idText).value)
    ensures DeletePlotIssues(plots, idText, o) == GetPlotIssues(plots, idText, o)
  {
    TextOfString(idText, o);
    FailuresOfTwo("id", Check(IsInt(Some(Str(idText)), o), IdNotInteger), PlotExists(plots, idText));
  }

  /** An integer id of a missing or soft-deleted plot gets exactly "Plot not found";
      a text that is not an integer gets "Id must be an integer" and the
      database's error; an integer text outside the 32-bit range passes `isInt`
      and gets the database's error alone. */
  lemma IdErrors(plots: map<int, P.Plot>, idText: string, o: Oracles)
    ensures PathId(idText).Some? && !LivePlot(plots, PathId(idText).value) ==> GetPlotIssues(plots, idText, o) == [Issue("id", PlotNotFound)]
    ensures !JsString.IsIntText(idText) ==> GetPlotIssues(plots, idText, o) == [Issue("id", IdNotInteger), Issue("id", None)]
    ensures JsString.IsIntText(idText) && PathId(idText).None? ==> GetPlotIssues(plots, idText, o) == [Issue("id", None)]
  {
    TextOfString(idText, o);
    FailuresOfTwo("id", Check(IsInt(Some(Str(idText)), o), IdNotInteger), PlotExists(plots, idText));
  }

  /** A required field: `notEmpty().withMessage(message)`. */
  function Required(body: Body, field: string, message: string, o: Oracles): Check {
    Check(NotEmpty(Field(body, field), o), Some(message))
  }

  function MaxLength(body: Body, field: string, max: nat, o: Oracles, message: Option<string>): Check {
    Check(LengthIn(Field(body, field), o, 0, Some(max)), message)
  }

  function FloatRange(body: Body, field: string, min: Option<real>, max: Option<real>, o: Oracles, message: Option<string>): Check {
    Check(FloatIn(Field(body, field), o, min, max), message)
  }

  const LatitudeRange: Option<string> := Some("Latitude must be a number between -90 and 90")
  const LongitudeRange: Option<string> := Some("Longitude must be a number between -180 and 180")
  const OwnerNotInteger: Option<string> := Some("Owner id must be an integer")
  const BadStatus: Option<string> := Some("Invalid status value")

  function StatusIssues(body: Body, o: Oracles): seq<Issue> {
    OptionalFailures("status", Field(body, "status"), [Check(IsIn(Field(body, "status"), o, P.StatusNames), BadStatus)])
  }

  /** The optional chains create and update share, from `actualHarvestDate` on. */
  function OptionalTailIssues(body: Body, o: Oracles): seq<Issue> {
    OptionalFailures("actualHarvestDate", Field(body, "actualHarvestDate"), [Check(IsIso8601(Field(body, "actualHarvestDate"), o), InvalidValue)])
    + OptionalFailures("lotCost", Field(body, "lotCost"), [FloatRange(body, "lotCost", Some(0.0), None, o, InvalidValue)])
    + OptionalFailures("damageDescription", Field(body, "damageDescription"), [MaxLength(body, "damageDescription", 255, o, InvalidValue)])
    + OptionalFailures("pests", Field(body, "pests"), [MaxLength(body, "pests", 255, o, InvalidValue)])
    + OptionalFailures("humidity", Field(body, "humidity"), [FloatRange(body, "humidity", None, None, o, InvalidValue)])
  }

  /** The optional tail passes exactly when each field it names, if given, is
      an ISO 8601 date, a non-negative cost, a text of at most 255 characters
      or a number. */
  lemma OptionalTailMeaning(body: Body, o: Oracles)
    ensures OptionalTailIssues(body, o) == [] <==>
      && ("actualHarvestDate" in body ==> IsIso8601(Field(body, "actualHarvestDate"), o))
      && ("lotCost" in body ==> FloatIn(Field(body, "lotCost"), o, Some(0.0), None))
      && ("damageDescription" in body ==> LengthIn(Field(body, "damageDescription"), o, 0, Some(255)))
      && ("pests" in body ==> LengthIn(Field(body, "pests"), o, 0, Some(255)))
      && ("humidity" in body ==> FloatIn(Field(body, "humidity"), o, None, None))
  {
  }

  /** `createPlotValidation`, chain by chain. */
  function CreatePlotIssues(users: map<int, U.User>, body: Body, o: Oracles): seq<Issue> {
    Failures("name", [Required(body, "name", "Name is required", o), MaxLength(body, "name", 100, o, InvalidValue)])
    + Failures("establishmentLocation", [Required(body, "establishmentLocation", "Location is required", o), MaxLength(body, "establishmentLocation", 255, o, InvalidValue)])
    + Failures("establishmentLat", [Required(body, "establishmentLat", "Latitude is required", o), FloatRange(body, "establishmentLat", Some(-90.0), Some(90.0), o, LatitudeRange)])
    + Failures("establishmentLng", [Required(body, "establishmentLng", "Longitude is required", o), FloatRange(body, "establishmentLng", Some(-180.0), Some(180.0), o, LongitudeRange)])
    + Failures("cropType", [Required(body, "cropType", "Crop type is required", o), MaxLength(body, "cropType", 50, o, InvalidValue)])
    + Failures("area", [Required(body, "area", "Area is required", o), FloatRange(body, "area", Some(0.01), None, o, InvalidValue)])
    + Failures("ownerId", [Required(body, "ownerId", "Owner is required", o), Check(IsInt(Field(body, "ownerId"), o), OwnerNotInteger), OwnerExists(users, Field(body, "ownerId"))])
    + StatusIssues(body, o)
    + Failures("sowingDate", [Required(body, "sowingDate", "Sowing date is required", o), Check(IsIso8601(Field(body, "sowingDate"), o), InvalidValue)])
    + Failures("expectedHarvestDate", [Required(body, "expectedHarvestDate", "Expected harvest date is required", o), Check(IsIso8601(Field(body, "expectedHarvestDate"), o), InvalidValue)])
    + OptionalTailIssues(body, o)
  }

  /** `updatePlotValidation`: the id chain, then every body chain optional. */
  function UpdatePlotIssues(plots: map<int, P.Plot>, users: map<int, U.User>, idText: string, body: Body, o: Oracles): seq<Issue> {
    IdIssues(plots, idText, o)
    + OptionalFailures("name", Field(body, "name"), [MaxLength(body, "name", 100, o, InvalidValue)])
    + OptionalFailures("establishmentLocation", Field(body, "establishmentLocation"), [MaxLength(body, "establishmentLocation", 255, o, InvalidValue)])
    + OptionalFailures("establishmentLat", Field(body, "establishmentLat"), [FloatRange(body, "establishmentLat", Some(-90.0), Some(90.0), o, InvalidValue)])
    + OptionalFailures("establishmentLng", Field(body, "establishmentLng"), [FloatRange(body, "establishmentLng", Some(-180.0), Some(180.0), o, InvalidValue)])
    + OptionalFailures("cropType", Field(body, "cropType"), [MaxLength(body, "cropType", 50, o, InvalidValue)])
    + OptionalFailures("area", Field(body, "area"), [FloatRange(body, "area", Some(0.01), None, o, InvalidValue)])
    + OptionalFailures("ownerId", Field(body, "ownerId"), [Check(IsInt(Field(body, "ownerId"), o), OwnerNotInteger), OwnerExists(users, Field(body, "ownerId"))])
    + StatusIssues(body, o)
    + OptionalFailures("sowingDate", Field(body, "sowingDate"), [Check(IsIso8601(Field(body, "sowingDate"), o), InvalidValue)])
    + OptionalFailures("expectedHarvestDate", Field(body, "expectedHarvestDate"), [Check(IsIso8601(Field(body, "expectedHarvestDate"), o), InvalidValue)])
    + OptionalTailIssues(body, o)
  }

  /** Every text a standard validator reads for a field the body defines is
      within `[min, max]`. */
  predicate FloatWithin(body: Body, field: string, o: Oracles, min: real, max: real) {
    forall t | t in Texts(Field(body, field), o) :: o.floatText(t).Some? && min <= o.floatText(t).value <= max
  }

  lemma FloatRangeMeaning(body: Body, field: string, o: Oracles, min: real, max: real)
    requires FloatRange(body, field, Some(min), Some(max), o, None).ok
    ensures FloatWithin(body, field, o, min, max)
  {
    forall t | t in Texts(Field(body, field), o)
      ensures o.floatText(t).Some? && min <= o.floatText(t).value <= max
    {
      assert FloatTextIn(t, o, Some(min), Some(max));
    }
  }

  /** A non-empty field is present in the body. */
  lemma RequiredPresent(body: Body, field: string, message: string, o: Oracles)
    requires Required(body, field, message, o).ok
    ensures field in body
  {
    assert "" in Texts(None, o);
  }

  predicate RequiredFields(body: Body) {
    && "name" in body && "establishmentLocation" in body && "establishmentLat" in body
    && "establishmentLng" in body && "cropType" in body && "area" in body && "ownerId" in body
    && "sowingDate" in body && "expectedHarvestDate" in body
  }

  /** A body that passes create validation defines the nine required fields,
      keeps the length caps, has latitude and longitude in range and an area of
      at least 0.01, names a live owner, carries ISO 8601 sowing and expected
      harvest dates and a valid status when it has one, and passes the
      optional tail. */
  lemma CreatePassMeaning(users: map<int, U.User>, body: Body, o: Oracles)
    requires CreatePlotIssues(users, body, o) == []
    ensures RequiredFields(body)
    ensures FloatWithin(body, "establishmentLat", o, -90.0, 90.0)
    ensures FloatWithin(body, "establishmentLng", o, -180.0, 180.0)
    ensures PkLookup(Field(body, "ownerId")).Found? && LiveUser(users, PkLookup(Field(body, "ownerId")).id)
    ensures "status" in body && body["status"].Str? ==> P.ParseStatus(body["status"].s).Some?
    ensures LengthIn(Field(body, "name"), o, 0, Some(100)) && LengthIn(Field(body, "cropType"), o, 0, Some(50))
    ensures LengthIn(Field(body, "establishmentLocation"), o, 0, Some(255))
    ensures FloatIn(Field(body, "area"), o, Some(0.01), None)
    ensures IsIso8601(Field(body, "sowingDate"), o) && IsIso8601(Field(body, "expectedHarvestDate"), o)
    ensures OptionalTailIssues(body, o) == []
  {
    var name := [Required(body, "name", "Name is required", o), MaxLength(body, "name", 100, o, InvalidValue)];
    var loc := [Required(body, "establishmentLocation", "Location is required", o), MaxLength(body, "establishmentLocation", 255, o, InvalidValue)];
    var lat := [Required(body, "establishmentLat", "Latitude is required", o), FloatRange(body, "establishmentLat", Some(-90.0), Some(90.0), o, LatitudeRange)];
    var lng := [Required(body, "establishmentLng", "Longitude is required", o), FloatRange(body, "establishmentLng", Some(-180.0), Some(180.0), o, LongitudeRange)];
    var crop := [Required(body, "cropType", "Crop type is required", o), MaxLength(body, "cropType", 50, o, InvalidValue)];
    var area := [Required(body, "area", "Area is required", o), FloatRange(body, "area", Some(0.01), None, o, InvalidValue)];
    var owner := [Required(body, "ownerId", "Owner is required", o), Check(IsInt(Field(body, "ownerId"), o), OwnerNotInteger), OwnerExists(users, Field(body, "ownerId"))];
    var sow := [Required(body, "sowingDate", "Sowing date is required", o), Check(IsIso8601(Field(body, "sowingDate"), o), InvalidValue)];
    var exp := [Required(body, "expectedHarvestDate", "Expected harvest date is required", o), Check(IsIso8601(Field(body, "expectedHarvestDate"), o), InvalidValue)];
    assert Failures("name", name) == [] && Failures("establishmentLocation", loc) == [] && Failures("establishmentLat", lat) == [];
    assert Failures("establishmentLng", lng) == [] && Failures("cropType", crop) == [] && Failures("area", area) == [];
    assert Failures("ownerId", owner) == [] && StatusIssues(body, o) == [];
    assert Failures("sowingDate", sow) == [] && Failures("expectedHarvestDate", exp) == [];
    assert name[0].ok && name[1].ok && loc[0].ok && lat[0].ok && lat[1].ok && lng[0].ok && lng[1].ok;
    assert crop[0].ok && crop[1].ok && area[0].ok && owner[0].ok && owner[2].ok && sow[0].ok && exp[0].ok;
    assert loc[1].ok && area[1].ok && sow[1].ok && exp[1].ok;
    RequiredPresent(body, "name", "Name is required", o);
    RequiredPresent(body, "establishmentLocation", "Location is required", o);
    RequiredPresent(body, "establishmentLat", "Latitude is required", o);
    RequiredPresent(body, "establishmentLng", "Longitude is required", o);
    RequiredPresent(body, "cropType", "Crop type is required", o);
    RequiredPresent(body, "area", "Area is required", o);
    RequiredPresent(body, "ownerId", "Owner is required", o);
    RequiredPresent(body, "sowingDate", "Sowing date is required", o);
    RequiredPresent(body, "expectedHarvestDate", "Expected harvest date is required", o);
    FloatRangeMeaning(body, "establishmentLat", o, -90.0, 90.0);
    FloatRangeMeaning(body, "establishmentLng", o, -180.0, 180.0);
    StatusMeaning(body, o);
  }

  /** A status that passes is one of the five names the plot model accepts. */
  lemma StatusMeaning(body: Body, o: Oracles)
    requires StatusIssues(body, o) == []
    ensures "status" in body && body["status"].Str? ==> P.ParseStatus(body["status"].s).Some?
  {
    if "status" in body && body["status"].Str? {
      var checks := [Check(IsIn(Field(body, "status"), o, P.StatusNames), BadStatus)];
      assert checks[0].ok;
      assert body["status"].s in Texts(Field(body, "status"), o);
    }
  }

  /** On update, an empty body passes exactly when the id is valid. */
  lemma EmptyUpdatePasses(plots: map<int, P.Plot>, users: map<int, U.User>, idText: string, o: Oracles)
    ensures UpdatePlotIssues(plots, users, idText, map[], o) == [] <==> PathId(idText).Some? && LivePlot(plots, PathId(idText).value)
  {
    IdPassesExactly(plots, idText, o);
    assert StatusIssues(map[], o) == [];
    assert OptionalTailIssues(map[], o) == [];
  }

  /** On update, every field that is given keeps its check: the length caps,
      latitude and longitude in range, an area of at least 0.01, a live owner,
      ISO 8601 dates and a valid status, and the optional tail. */
  lemma UpdatePassMeaning(plots: map<int, P.Plot>, users: map<int, U.User>, idText: string, body: Body, o: Oracles)
    requires UpdatePlotIssues(plots, users, idText, body, o) == []
    ensures PathId(idText).Some? && LivePlot(plots, PathId(idText).value)
    ensures "establishmentLat" in body ==> FloatWithin(body, "establishmentLat", o, -90.0, 90.0)
    ensures "establishmentLng" in body ==> FloatWithin(body, "establishmentLng", o, -180.0, 180.0)
    ensures "ownerId" in body ==> PkLookup(Field(body, "ownerId")).Found? && LiveUser(users, PkLookup(Field(body, "ownerId")).id)
    ensures "status" in body && body["status"].Str? ==> P.ParseStatus(body["status"].s).Some?
    ensures "name" in body ==> LengthIn(Field(body, "name"), o, 0, Some(100))
    ensures "establishmentLocation" in body ==> LengthIn(Field(body, "establishmentLocation"), o, 0, Some(255))
    ensures "cropType" in body ==> LengthIn(Field(body, "cropType"), o, 0, Some(50))
    ensures "area" in body ==> FloatIn(Field(body, "area"), o, Some(0.01), None)
    ensures "sowingDate" in body ==> IsIso8601(Field(body, "sowingDate"), o)
    ensures "expectedHarvestDate" in body ==> IsIso8601(Field(body, "expectedHarvestDate"), o)
    ensures OptionalTailIssues(body, o) == []
  {
    IdPassesExactly(plots, idText, o);
    assert IdIssues(plots, idText, o) == [];
    var lat := [FloatRange(body, "establishmentLat", Some(-90.0), Some(90.0), o, InvalidValue)];
    var lng := [FloatRange(body, "establishmentLng", Some(-180.0), Some(180.0), o, InvalidValue)];
    var owner := [Check(IsInt(Field(body, "ownerId"), o), OwnerNotInteger), OwnerExists(users, Field(body, "ownerId"))];
    assert OptionalFailures("establishmentLat", Field(body, "establishmentLat"), lat) == [];
    assert OptionalFailures("establishmentLng", Field(body, "establishmentLng"), lng) == [];
    assert OptionalFailures("ownerId", Field(body, "ownerId"), owner) == [];
    assert StatusIssues(body, o) == [];
    var name := [MaxLength(body, "name", 100, o, InvalidValue)];
    var loc := [MaxLength(body, "establishmentLocation", 255, o, InvalidValue)];
    var crop := [MaxLength(body, "cropType", 50, o, InvalidValue)];
    var area := [FloatRange(body, "area", Some(0.01), None, o, InvalidValue)];
    var sow := [Check(IsIso8601(Field(body, "sowingDate"), o), InvalidValue)];
    var exp := [Check(IsIso8601(Field(body, "expectedHarvestDate"), o), InvalidValue)];
    assert OptionalFailures("name", Field(body, "name"), name) == [];
    assert OptionalFailures("establishmentLocation", Field(body, "establishmentLocation"), loc) == [];
    assert OptionalFailures("cropType", Field(body, "cropType"), crop) == [];
    assert OptionalFailures("area", Field(body, "area"), area) == [];
    assert OptionalFailures("sowingDate", Field(body, "sowingDate"), sow) == [];
    assert OptionalFailures("expectedHarvestDate", Field(body, "expectedHarvestDate"), exp) == [];
    if "name" in body { assert name[0].ok; }
    if "establishmentLocation" in body { assert loc[0].ok; }
    if "cropType" in body { assert crop[0].ok; }
    if "area" in body { assert area[0].ok; }
    if "sowingDate" in body { assert sow[0].ok; }
    if "expectedHarvestDate" in body { assert exp[0].ok; }
    if "establishmentLat" in body {
      assert lat[0].ok;
      FloatRangeMeaning(body, "establishmentLat", o, -90.0, 90.0);
    }
    if "establishmentLng" in body {
      assert lng[0].ok;
      FloatRangeMeaning(body, "establishmentLng", o, -180.0, 180.0);
    }
    if "ownerId" in body {
      assert owner[1].ok;
    }
    StatusMeaning(body, o);
  }

  /** The create validation asks for `establishmentLocation`, while the plot
      table requires `location`: a body that passes validation but has no
      `location` is still refused when the plot is built, and the handler
      answers 500. */
  lemma ValidatedCreateWithoutLocation(users: map<int, U.User>, body: Body, o: Oracles)
    requires CreatePlotIssues(users, body, o) == [] && "location" !in body
    ensures PlotController.BuildPlot(users, body).None?
  {
    PlotController.BuildPlotMeaning(users, body);
    assert P.Column.Location.Required() && P.Column.Location.Key() == "location";
  }
}
