/** The plot handlers of plot.controller.js over the store. Every handler
    answers from its `try` block, or 500 with its own message when an awaited
    database call throws. */
module PlotController {
  import opened Wrappers
  import opened Json
  import opened Store
  import P = PlotModel
  import U = UserModel
  import Columns

  /** The `owner` include: the owner's id, username and email. */
  datatype OwnerSummary = OwnerSummary(id: int, username: string, email: string)

  /** A plot as the list and get handlers return it. */
  datatype PlotView = PlotView(id: int, plot: P.Plot, owner: Option<OwnerSummary>)

  /** A plot row as create and update return it (no include). */
  datatype PlotRow = PlotRow(id: int, plot: P.Plot)

  function OwnerOf(users: map<int, U.User>, p: P.Plot): Option<OwnerSummary> {
    if p.ownerId in users then Some(OwnerSummary(p.ownerId, users[p.ownerId].username, users[p.ownerId].email))
    else None
  }

  /** The row `PlotModel.create(body)` inserts; None when the database refuses it
      (a column rejects its value, a required column is missing, or the owner
      does not exist). */
  function BuildPlot(users: map<int, U.User>, body: Body): Option<P.Plot> {
    var d :- P.DecodePatch(body);
    var p :- P.NewPlot(d);
    if p.ownerId in users then Some(p) else None
  }

  /** The row after `plot.update(body)`; None when the database refuses it. */
  function RevisePlot(users: map<int, U.User>, p: P.Plot, body: Body): Option<P.Plot> {
    var d :- P.DecodePatch(body);
    var q := P.ApplyPatch(p, d);
    if q.ownerId in users then Some(q) else None
  }

  /** A created plot carries every column the body names with the value given,
      and the default of every other column; it is built exactly when each column
      accepts its value, the required ones are all named, and the owner exists. */
  lemma BuildPlotMeaning(users: map<int, U.User>, body: Body)
    ensures BuildPlot(users, body).Some? ==>
      forall c: P.Column :: P.Attr(BuildPlot(users, body).value, c) == if c.Key() in body then body[c.Key()] else P.Default(c)
    ensures BuildPlot(users, body).Some? <==>
      && (forall c: P.Column | c.Key() in body :: P.Accepts(c, body[c.Key()]))
      && (forall c: P.Column | c.Required() :: c.Key() in body)
      && "ownerId" in body && Columns.AsInt(body["ownerId"]).Some? && Columns.AsInt(body["ownerId"]).value in users
  {
    P.PatchFails(body);
    if d :| P.DecodePatch(body) == Some(d) {
      P.NewPlotRequires(body, d);
      if p :| P.NewPlot(d) == Some(p) {
        P.NewPlotAttrs(body, d, p);
        assert P.Attr(p, P.OwnerId) == body["ownerId"];
      }
    }
  }

  /** An update shows every column the body names with the value given and keeps
      every other column; it is refused exactly when a column rejects its value
      or the resulting owner does not exist. */
  lemma RevisePlotMeaning(users: map<int, U.User>, p: P.Plot, body: Body)
    ensures RevisePlot(users, p, body).Some? ==>
      forall c: P.Column :: P.Attr(RevisePlot(users, p, body).value, c) == if c.Key() in body then body[c.Key()] else P.Attr(p, c)
    ensures RevisePlot(users, p, body).Some? <==>
      && (forall c: P.Column | c.Key() in body :: P.Accepts(c, body[c.Key()]))
      && (if "ownerId" in body && Columns.AsInt(body["ownerId"]).Some? then Columns.AsInt(body["ownerId"]).value else p.ownerId) in users
  {
    P.PatchFails(body);
    if d :| P.DecodePatch(body) == Some(d) {
      P.PatchNames(body, d, p);
      assert P.Attr(P.ApplyPatch(p, d), P.OwnerId) == if "ownerId" in body then body["ownerId"] else P.Attr(p, P.OwnerId);
    }
  }

  /** An accepted update keeps the row within its column caps. */
  lemma RevisePlotKeepsCaps(users: map<int, U.User>, p: P.Plot, body: Body)
    requires P.WithinCaps(p)
    ensures RevisePlot(users, p, body).Some? ==> P.WithinCaps(RevisePlot(users, p, body).value)
  {
    if d :| P.DecodePatch(body) == Some(d) {
      P.CapsKept(body, d, p);
    }
  }

  /** An empty body changes nothing. */
  lemma EmptyUpdateKeepsPlot(users: map<int, U.User>, p: P.Plot)
    requires p.ownerId in users
    ensures RevisePlot(users, p, map[]) == Some(p)
  {
  }

  /** `getAllPlots`: exactly the plots whose `deleted` is false, each with its owner. */
  method GetAllPlots(db: Database) returns (r: Reply<map<int, PlotView>>)
    ensures r.status == 200 && r.body.Data?
    ensures forall id :: id in r.body.value <==> LivePlot(db.plots, id)
    ensures forall id | id in r.body.value ::
      LivePlot(db.plots, id) && r.body.value[id].id == id && r.body.value[id].plot == db.plots[id]
      && r.body.value[id].owner == OwnerOf(db.users, db.plots[id])
  {
    var views := map id | id in db.plots && !db.plots[id].deleted :: PlotView(id, db.plots[id], OwnerOf(db.users, db.plots[id]));
    r := Reply(200, Data(views));
  }

  /** `getPlotById`: 404 unless the plot exists and is not soft-deleted. */
  method GetPlotById(db: Database, idText: string) returns (r: Reply<PlotView>)
    ensures PathId(idText).None? ==> r == Reply(500, Message("Could not fetch plot"))
    ensures PathId(idText).Some? && !LivePlot(db.plots, PathId(idText).value) ==> r == Reply(404, Message("Plot not found"))
    ensures PathId(idText).Some? && LivePlot(db.plots, PathId(idText).value) ==>
      var id := PathId(idText).value;
      r == Reply(200, Data(PlotView(id, db.plots[id], OwnerOf(db.users, db.plots[id]))))
  {
    var id := PathId(idText);
    if id.None? {
      return Reply(500, Message("Could not fetch plot"));
    }
    if !(id.value in db.plots && !db.plots[id.value].deleted) {
      return Reply(404, Message("Plot not found"));
    }
    var p := db.plots[id.value];
    r := Reply(200, Data(PlotView(id.value, p, OwnerOf(db.users, p))));
  }

  /** `createPlot`: one new row built from the body, or 500 and no change. */
  method CreatePlot(db: Database, body: Body) returns (r: Reply<PlotRow>)
    requires db.Valid()
    modifies db
    ensures db.Valid()
    ensures db.users == old(db.users) && db.profiles == old(db.profiles)
    ensures db.nextUserId == old(db.nextUserId) && db.nextProfileId == old(db.nextProfileId)
    ensures BuildPlot(old(db.users), body).None? ==>
      r == Reply(500, Message("Could not create plot")) && db.plots == old(db.plots) && db.nextPlotId == old(db.nextPlotId)
    ensures BuildPlot(old(db.users), body).Some? ==>
      var p := BuildPlot(old(db.users), body).value;
      && old(db.nextPlotId) !in old(db.plots)
      && db.plots == old(db.plots)[old(db.nextPlotId) := p]
      && db.nextPlotId == old(db.nextPlotId) + 1
      && r == Reply(201, Data(PlotRow(old(db.nextPlotId), p)))
  {
    var p := BuildPlot(db.users, body);
    if p.None? {
      return Reply(500, Message("Could not create plot"));
    }
    var id := db.nextPlotId;
    db.plots := db.plots[id := p.value];
    db.nextPlotId := id + 1;
    r := Reply(201, Data(PlotRow(id, p.value)));
  }

  /** `updatePlot`: 404 on a missing or soft-deleted plot; otherwise every column
      the body names is overwritten, with no owner or role check. */
  method UpdatePlot(db: Database, idText: string, body: Body) returns (r: Reply<PlotRow>)
    requires db.Valid()
    modifies db
    ensures db.Valid()
    ensures db.users == old(db.users) && db.profiles == old(db.profiles)
    ensures db.nextUserId == old(db.nextUserId) && db.nextProfileId == old(db.nextProfileId) && db.nextPlotId == old(db.nextPlotId)
    ensures PathId(idText).None? ==> r == Reply(500, Message("Could not update plot")) && db.plots == old(db.plots)
    ensures PathId(idText).Some? && !LivePlot(old(db.plots), PathId(idText).value) ==>
      r == Reply(404, Message("Plot not found")) && db.plots == old(db.plots)
    ensures PathId(idText).Some? && LivePlot(old(db.plots), PathId(idText).value) ==>
      var id := PathId(idText).value;
      var q := RevisePlot(old(db.users), old(db.plots)[id], body);
      && (q.None? ==> r == Reply(500, Message("Could not update plot")) && db.plots == old(db.plots))
      && (q.Some? ==> r == Reply(200, Data(PlotRow(id, q.value))) && db.plots == old(db.plots)[id := q.value])
  {
    var id := PathId(idText);
    if id.None? {
      return Reply(500, Message("Could not update plot"));
    }
    if !(id.value in db.plots && !db.plots[id.value].deleted) {
      return Reply(404, Message("Plot not found"));
    }
    var q := RevisePlot(db.users, db.plots[id.value], body);
    if q.None? {
      return Reply(500, Message("Could not update plot"));
    }
    RevisePlotKeepsCaps(db.users, db.plots[id.value], body);
    var after := db.plots[id.value := q.value];
    assert forall k | k in after :: P.WithinCaps(after[k]);
    assert OwnersExist(after, db.users);
    db.plots := after;
    r := Reply(200, Data(PlotRow(id.value, q.value)));
  }

  /** `deletePlot`: a live plot gets `deleted = true` and nothing else changes;
      afterwards it is no longer live, so a second delete answers 404. */
  method DeletePlot(db: Database, idText: string) returns (r: Reply<PlotRow>)
    requires db.Valid()
    modifies db
    ensures db.Valid()
    ensures db.users == old(db.users) && db.profiles == old(db.profiles)
    ensures db.nextUserId == old(db.nextUserId) && db.nextProfileId == old(db.nextProfileId) && db.nextPlotId == old(db.nextPlotId)
    ensures PathId(idText).None? ==> r == Reply(500, Message("Could not delete plot")) && db.plots == old(db.plots)
    ensures PathId(idText).Some? && !LivePlot(old(db.plots), PathId(idText).value) ==>
      r == Reply(404, Message("Plot not found")) && db.plots == old(db.plots)
    ensures PathId(idText).Some? && LivePlot(old(db.plots), PathId(idText).value) ==>
      var id := PathId(idText).value;
      && r == Reply(200, Message("Plot deleted successfully"))
      && db.plots == old(db.plots)[id := old(db.plots)[id].(deleted := true)]
      && !LivePlot(db.plots, id)
  {
    var id := PathId(idText);
    if id.None? {
      return Reply(500, Message("Could not delete plot"));
    }
    if !(id.value in db.plots && !db.plots[id.value].deleted) {
      return Reply(404, Message("Plot not found"));
    }
    db.plots := db.plots[id.value := db.plots[id.value].(deleted := true)];
    r := Reply(200, Message("Plot deleted successfully"));
  }

  /** Soft-deleting a plot hides exactly that plot from the live plots. */
  lemma SoftDeleteHidesOnlyIt(plots: map<int, P.Plot>, id: int, other: int)
    requires LivePlot(plots, id)
    ensures var after := plots[id := plots[id].(deleted := true)];
      !LivePlot(after, id) && (other != id ==> (LivePlot(after, other) <==> LivePlot(plots, other)))
      && after.Keys == plots.Keys
  {
  }
}
