/** The plot table of plot.model.js: the record, its status enum, the JSON view
    of each column, and how a request body becomes a new or updated row. */
module PlotModel {
  import opened Wrappers
  import opened Json
  import opened Columns

  datatype PlotStatus = Blue | Yellow | Green | Red | Black

  const StatusNames: seq<string> := ["blue", "yellow", "green", "red", "black"]

  function StatusText(s: PlotStatus): string {
    match s
    case Blue => "blue"
    case Yellow => "yellow"
    case Green => "green"
    case Red => "red"
    case Black => "black"
  }

  function ParseStatus(t: string): (r: Option<PlotStatus>)
    ensures r.Some? <==> t in StatusNames
    ensures r.Some? ==> StatusText(r.value) == t
  {
    if t == "blue" then Some(Blue)
    else if t == "yellow" then Some(Yellow)
    else if t == "green" then Some(Green)
    else if t == "red" then Some(Red)
    else if t == "black" then Some(Black)
    else None
  }

  /** Every status prints to one of the enum's names and parses back to itself. */
  lemma StatusRoundTrip(s: PlotStatus)
    ensures StatusText(s) in StatusNames
    ensures ParseStatus(StatusText(s)) == Some(s)
  {
  }

  function AsStatus(j: Json): Option<PlotStatus> {
    if j.Str? then ParseStatus(j.s) else None
  }

  function TakeStatus(body: Body, key: string): Option<Option<PlotStatus>> {
    if key !in body then Some(None)
    else if AsStatus(body[key]).Some? then Some(AsStatus(body[key])) else None
  }

  /** The status a plot gets when the create body names none. */
  const DefaultStatus: PlotStatus := Blue

  /** A plot row. `location` is the GEOMETRY value, kept as the JSON object the
      client sent; nullable columns are Option. */
  datatype Plot = Plot(
    name: string,
    location: Json,
    cropType: string,
    lotCost: Option<real>,
    area: real,
    ownerId: int,
    status: PlotStatus,
    sowingDate: string,
    expectedHarvestDate: string,
    actualHarvestDate: Option<string>,
    damageDescription: Option<string>,
    pests: Option<string>,
    humidity: Option<real>,
    deleted: bool)

  datatype Column =
    | Name | Location | CropType | LotCost | Area | OwnerId | StatusColumn | SowingDate
    | ExpectedHarvestDate | ActualHarvestDate | DamageDescription | Pests | Humidity | Deleted
  {
    /** The attribute name in a request body and in the JSON of a row. */
    function Key(): string {
      match this
      case Name => "name"
      case Location => "location"
      case CropType => "cropType"
      case LotCost => "lotCost"
      case Area => "area"
      case OwnerId => "ownerId"
      case StatusColumn => "status"
      case SowingDate => "sowingDate"
      case ExpectedHarvestDate => "expectedHarvestDate"
      case ActualHarvestDate => "actualHarvestDate"
      case DamageDescription => "damageDescription"
      case Pests => "pests"
      case Humidity => "humidity"
      case Deleted => "deleted"
    }

    /** Declared `allowNull: false` with no default value. */
    predicate Required() {
      this in {Name, Location, CropType, Area, OwnerId, SowingDate, ExpectedHarvestDate}
    }
  }

  /** The JSON view of a plot column, as `res.json(plot)` shows it. */
  function Attr(p: Plot, c: Column): Json {
    match c
    case Name => Str(p.name)
    case Location => p.location
    case CropType => Str(p.cropType)
    case LotCost => RealOrNull(p.lotCost)
    case Area => Num(p.area)
    case OwnerId => Num(p.ownerId as real)
    case StatusColumn => Str(StatusText(p.status))
    case SowingDate => Str(p.sowingDate)
    case ExpectedHarvestDate => Str(p.expectedHarvestDate)
    case ActualHarvestDate => TextOrNull(p.actualHarvestDate)
    case DamageDescription => TextOrNull(p.damageDescription)
    case Pests => TextOrNull(p.pests)
    case Humidity => RealOrNull(p.humidity)
    case Deleted => Bool(p.deleted)
  }

  /** The value a new plot gets for a column the create body does not name:
      the column's `defaultValue`, or NULL. */
  function Default(c: Column): Json {
    match c
    case StatusColumn => Str(StatusText(DefaultStatus))
    case Deleted => Bool(false)
    case _ => Null
  }

  /** Whether column `c` takes the JSON value `j`: name is `STRING(100)`,
      cropType `STRING(50)`, damageDescription and pests `STRING(255)`. */
  predicate Accepts(c: Column, j: Json) {
    match c
    case Name => Fits(j, 100)
    case CropType => Fits(j, 50)
    case SowingDate | ExpectedHarvestDate => j.Str?
    case Location => j.Obj?
    case LotCost | Humidity => NullableReal(j).Some?
    case Area => j.Num?
    case OwnerId => AsInt(j).Some?
    case StatusColumn => AsStatus(j).Some?
    case ActualHarvestDate => NullableText(j).Some?
    case DamageDescription | Pests => j == Null || Fits(j, 255)
    case Deleted => j.Bool?
  }

  /** The plot columns a body names, decoded. */
  datatype Patch = Patch(
    name: Option<string>,
    location: Option<Json>,
    cropType: Option<string>,
    lotCost: Option<Option<real>>,
    area: Option<real>,
    ownerId: Option<int>,
    status: Option<PlotStatus>,
    sowingDate: Option<string>,
    expectedHarvestDate: Option<string>,
    actualHarvestDate: Option<Option<string>>,
    damageDescription: Option<Option<string>>,
    pests: Option<Option<string>>,
    humidity: Option<Option<real>>,
    deleted: Option<bool>)

  /** The named columns of a body; None when a column rejects its value. Keys
      that are not columns are ignored. */
  function DecodePatch(body: Body): Option<Patch> {
    var name := TakeCapped(body, "name", 100);
    var location := TakeGeometry(body, "location");
    var cropType := TakeCapped(body, "cropType", 50);
    var lotCost := TakeNullableReal(body, "lotCost");
    var area := TakeReal(body, "area");
    var ownerId := TakeInt(body, "ownerId");
    var status := TakeStatus(body, "status");
    var sowingDate := TakeText(body, "sowingDate");
    var expectedHarvestDate := TakeText(body, "expectedHarvestDate");
    var actualHarvestDate := TakeNullableText(body, "actualHarvestDate");
    var damageDescription := TakeNullableCapped(body, "damageDescription", 255);
    var pests := TakeNullableCapped(body, "pests", 255);
    var humidity := TakeNullableReal(body, "humidity");
    var deleted := TakeBool(body, "deleted");
    if name.Some? && location.Some? && cropType.Some? && lotCost.Some? && area.Some? && ownerId.Some?
       && status.Some? && sowingDate.Some? && expectedHarvestDate.Some? && actualHarvestDate.Some?
       && damageDescription.Some? && pests.Some? && humidity.Some? && deleted.Some?
    then Some(Patch(name.value, location.value, cropType.value, lotCost.value, area.value,
                    ownerId.value, status.value, sowingDate.value, expectedHarvestDate.value,
                    actualHarvestDate.value, damageDescription.value, pests.value, humidity.value,
                    deleted.value))
    else None
  }

  /** `plot.update(values)`: every named column takes its new value. */
  function ApplyPatch(p: Plot, d: Patch): Plot {
    Plot(GetOr(d.name, p.name), GetOr(d.location, p.location), GetOr(d.cropType, p.cropType),
         GetOr(d.lotCost, p.lotCost), GetOr(d.area, p.area), GetOr(d.ownerId, p.ownerId),
         GetOr(d.status, p.status), GetOr(d.sowingDate, p.sowingDate),
         GetOr(d.expectedHarvestDate, p.expectedHarvestDate),
         GetOr(d.actualHarvestDate, p.actualHarvestDate),
         GetOr(d.damageDescription, p.damageDescription), GetOr(d.pests, p.pests),
         GetOr(d.humidity, p.humidity), GetOr(d.deleted, p.deleted))
  }

  /** `PlotModel.create(values)`: None when a required column is missing. */
  function NewPlot(d: Patch): Option<Plot> {
    if d.name.None? || d.location.None? || d.cropType.None? || d.area.None? || d.ownerId.None?
       || d.sowingDate.None? || d.expectedHarvestDate.None?
    then None
    else Some(Plot(d.name.value, d.location.value, d.cropType.value, GetOr(d.lotCost, None),
                   d.area.value, d.ownerId.value, GetOr(d.status, DefaultStatus),
                   d.sowingDate.value, d.expectedHarvestDate.value,
                   GetOr(d.actualHarvestDate, None), GetOr(d.damageDescription, None),
                   GetOr(d.pests, None), GetOr(d.humidity, None), GetOr(d.deleted, false)))
  }

  /** An update shows every column the body names with the value given, and
      every other column as it was. */
  lemma PatchNames(body: Body, d: Patch, p: Plot)
    requires DecodePatch(body) == Some(d)
    ensures forall c: Column :: Attr(ApplyPatch(p, d), c) == if c.Key() in body then body[c.Key()] else Attr(p, c)
  {
    forall c: Column
      ensures Attr(ApplyPatch(p, d), c) == if c.Key() in body then body[c.Key()] else Attr(p, c)
    {
      match c
      case Name => { }
      case Location => { }
      case CropType => { }
      case LotCost => { }
      case Area => { }
      case OwnerId => { }
      case StatusColumn => { }
      case SowingDate => { }
      case ExpectedHarvestDate => { }
      case ActualHarvestDate => { }
      case DamageDescription => { }
      case Pests => { }
      case Humidity => { }
      case Deleted => { }
    }
  }

  /** A body is rejected exactly when some column it names rejects its value. */
  lemma PatchFails(body: Body)
    ensures DecodePatch(body).None? <==> exists c: Column :: c.Key() in body && !Accepts(c, body[c.Key()])
  {
    if DecodePatch(body).None? {
      if TakeCapped(body, "name", 100).None? {
        assert Name.Key() in body && !Accepts(Name, body[Name.Key()]);
      } else if TakeGeometry(body, "location").None? {
        assert Location.Key() in body && !Accepts(Location, body[Location.Key()]);
      } else if TakeCapped(body, "cropType", 50).None? {
        assert CropType.Key() in body && !Accepts(CropType, body[CropType.Key()]);
      } else if TakeNullableReal(body, "lotCost").None? {
        assert LotCost.Key() in body && !Accepts(LotCost, body[LotCost.Key()]);
      } else if TakeReal(body, "area").None? {
        assert Area.Key() in body && !Accepts(Area, body[Area.Key()]);
      } else if TakeInt(body, "ownerId").None? {
        assert OwnerId.Key() in body && !Accepts(OwnerId, body[OwnerId.Key()]);
      } else if TakeStatus(body, "status").None? {
        assert StatusColumn.Key() in body && !Accepts(StatusColumn, body[StatusColumn.Key()]);
      } else if TakeText(body, "sowingDate").None? {
        assert SowingDate.Key() in body && !Accepts(SowingDate, body[SowingDate.Key()]);
      } else if TakeText(body, "expectedHarvestDate").None? {
        assert ExpectedHarvestDate.Key() in body && !Accepts(ExpectedHarvestDate, body[ExpectedHarvestDate.Key()]);
      } else if TakeNullableText(body, "actualHarvestDate").None? {
        assert ActualHarvestDate.Key() in body && !Accepts(ActualHarvestDate, body[ActualHarvestDate.Key()]);
      } else if TakeNullableCapped(body, "damageDescription", 255).None? {
        assert DamageDescription.Key() in body && !Accepts(DamageDescription, body[DamageDescription.Key()]);
      } else if TakeNullableCapped(body, "pests", 255).None? {
        assert Pests.Key() in body && !Accepts(Pests, body[Pests.Key()]);
      } else if TakeNullableReal(body, "humidity").None? {
        assert Humidity.Key() in body && !Accepts(Humidity, body[Humidity.Key()]);
      } else if TakeBool(body, "deleted").None? {
        assert Deleted.Key() in body && !Accepts(Deleted, body[Deleted.Key()]);
      }
    } else {
      forall c: Column | c.Key() in body
        ensures Accepts(c, body[c.Key()])
      {
        match c
        case Name => { }
        case Location => { }
        case CropType => { }
        case LotCost => { }
        case Area => { }
        case OwnerId => { }
        case StatusColumn => { }
        case SowingDate => { }
        case ExpectedHarvestDate => { }
        case ActualHarvestDate => { }
        case DamageDescription => { }
        case Pests => { }
        case Humidity => { }
        case Deleted => { }
      }
    }
  }

  /** A created plot shows every column the body names with the value given,
      and every other column with its default. */
  lemma NewPlotAttrs(body: Body, d: Patch, p: Plot)
    requires DecodePatch(body) == Some(d) && NewPlot(d) == Some(p)
    ensures forall c: Column :: Attr(p, c) == if c.Key() in body then body[c.Key()] else Default(c)
  {
    forall c: Column
      ensures Attr(p, c) == if c.Key() in body then body[c.Key()] else Default(c)
    {
      match c
      case Name => { }
      case Location => { }
      case CropType => { }
      case LotCost => { }
      case Area => { }
      case OwnerId => { }
      case StatusColumn => { }
      case SowingDate => { }
      case ExpectedHarvestDate => { }
      case ActualHarvestDate => { }
      case DamageDescription => { }
      case Pests => { }
      case Humidity => { }
      case Deleted => { }
    }
  }

  /** Creation succeeds exactly when the body names every required column. */
  lemma NewPlotRequires(body: Body, d: Patch)
    requires DecodePatch(body) == Some(d)
    ensures NewPlot(d).Some? <==> forall c: Column | c.Required() :: c.Key() in body
  {
    if NewPlot(d).Some? {
      forall c: Column | c.Required()
        ensures c.Key() in body
      {
        match c
        case Name => { }
        case Location => { }
        case CropType => { }
        case LotCost => { }
        case Area => { }
        case OwnerId => { }
        case StatusColumn => { }
        case SowingDate => { }
        case ExpectedHarvestDate => { }
        case ActualHarvestDate => { }
        case DamageDescription => { }
        case Pests => { }
        case Humidity => { }
        case Deleted => { }
      }
    } else {
      assert Name.Required() && Location.Required() && CropType.Required() && Area.Required() && OwnerId.Required() && SowingDate.Required() && ExpectedHarvestDate.Required();
    }
  }

  /** The caps of the string columns: `STRING(100)`, `STRING(50)` and `STRING(255)`,
      and the 32-bit range of the integer column. */
  predicate WithinCaps(p: Plot) {
    && |p.name| <= 100
    && |p.cropType| <= 50
    && (p.damageDescription.Some? ==> |p.damageDescription.value| <= 255)
    && (p.pests.Some? ==> |p.pests.value| <= 255)
    && InIntRange(p.ownerId)
  }

  /** Every row the table stores fits its caps: a created row, and an updated
      row that fitted before. */
  lemma CapsKept(body: Body, d: Patch, p: Plot)
    requires DecodePatch(body) == Some(d)
    ensures WithinCaps(p) ==> WithinCaps(ApplyPatch(p, d))
    ensures NewPlot(d).Some? ==> WithinCaps(NewPlot(d).value)
  {
  }
}
