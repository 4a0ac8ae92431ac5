/** The guard chains of plot.routes.js. */
module PlotRoutes {
  import opened Routing

  datatype Chain = GetPlotByIdValidation | CreatePlotValidation | UpdatePlotValidation | DeletePlotValidation

  datatype Handler = GetMyPlots | GetAllPlots | GetPlotById | CreatePlot | UpdatePlot | DeletePlot

  /** `getMyPlots` is imported by the router but plot.controller.js does not define it. */
  predicate Defined(h: Handler) {
    h != GetMyPlots
  }

  const Table: seq<Route<Chain, Handler>> := [
    Route(Get, "/me", [Authenticate], GetMyPlots),
    Route(Get, "/", [Authenticate, RequireAdmin], GetAllPlots),
    Route(Get, "/:id", [Authenticate, RequireAdmin, Validate(GetPlotByIdValidation), Validator], GetPlotById),
    Route(Post, "/", [Authenticate, Validate(CreatePlotValidation), Validator], CreatePlot),
    Route(Put, "/", [Authenticate, Validate(CreatePlotValidation), Validator], CreatePlot),
    Route(Put, "/:id", [Authenticate, Validate(UpdatePlotValidation), Validator], UpdatePlot),
    Route(Delete, "/:id", [Authenticate, Validate(DeletePlotValidation), Validator], DeletePlot)
  ]

  /** Every plot route runs `authMiddleware` first, so no plot handler runs for
      an unauthenticated caller. */
  lemma AuthenticationFirst(i: int, caller: Caller, valid: Chain -> bool)
    requires 0 <= i < |Table|
    ensures |Table[i].guards| > 0 && Table[i].guards[0] == Authenticate
    ensures Reaches(Table[i].guards, caller, valid) ==> caller.authenticated
  {
    AuthFirstGates(Table[i].guards, caller, valid);
  }

  /** `adminMiddleware` guards exactly `GET /` and `GET /:id`; those handlers run
      only for admins. */
  lemma AdminOnlyOnListing(i: int, caller: Caller, valid: Chain -> bool)
    requires 0 <= i < |Table|
    ensures RequireAdmin in Table[i].guards <==> Table[i].verb == Get && (Table[i].path == "/" || Table[i].path == "/:id")
    ensures RequireAdmin in Table[i].guards && Reaches(Table[i].guards, caller, valid) ==> caller.admin
  {
    if RequireAdmin in Table[i].guards {
      AdminGates(Table[i].guards, 1, caller, valid);
    }
  }

  /** Any authenticated caller, admin or not, whose input validates reaches
      `updatePlot` or `deletePlot`: there is no ownership or role check. */
  lemma AnyUserUpdatesOrDeletes(i: int, valid: Chain -> bool)
    requires 0 <= i < |Table| && (Table[i].handler == UpdatePlot || Table[i].handler == DeletePlot)
    requires valid(UpdatePlotValidation) && valid(DeletePlotValidation)
    ensures Reaches(Table[i].guards, Caller(true, false), valid)
  {
    assert i == 5 || i == 6;
  }

  /** `createPlot` is reached through `POST /` and `PUT /` alike, each after the
      create validation and `validator`. */
  lemma CreateThroughPostAndPut(i: int)
    requires 0 <= i < |Table|
    ensures Table[i].handler == CreatePlot <==> Table[i].path == "/" && (Table[i].verb == Post || Table[i].verb == Put)
    ensures Table[i].handler == CreatePlot ==> Table[i].guards == [Authenticate, Validate(CreatePlotValidation), Validator]
  {
  }

  /** On every route with a validation chain, the chain and `validator` run
      right before the handler, so the handler runs only on input that validates. */
  lemma ValidationBeforeHandler(i: int, caller: Caller, valid: Chain -> bool)
    requires 0 <= i < |Table|
    requires exists j | 0 <= j < |Table[i].guards| :: Table[i].guards[j].Validate?
    ensures var g := Table[i].guards; |g| >= 2 && g[|g| - 2].Validate? && g[|g| - 1] == Validator
    ensures var g := Table[i].guards; Reaches(g, caller, valid) ==> valid(g[|g| - 2].chain)
  {
    var g := Table[i].guards;
    assert 2 <= i;
    ValidatorGates(g, |g| - 2, |g| - 1, caller, valid);
  }

  /** `GET /me` needs authentication only, and its handler is not defined. */
  lemma MyPlotsRoute()
    ensures Table[0].verb == Get && Table[0].path == "/me" && Table[0].guards == [Authenticate]
    ensures !Defined(Table[0].handler)
    ensures forall i | 1 <= i < |Table| :: Defined(Table[i].handler)
  {
  }
}
