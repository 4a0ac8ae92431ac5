/** The guard chains of profile.routes.js: none. */
module ProfileRoutes {
  import opened Routing

  datatype Chain = NoChain

  datatype Handler = GetAllProfiles | GetProfileById | CreateProfile | UpdateProfile | DeleteProfile

  const Table: seq<Route<Chain, Handler>> := [
    Route(Get, "/", [], GetAllProfiles),
    Route(Get, "/:id", [], GetProfileById),
    Route(Post, "/", [], CreateProfile),
    Route(Put, "/:id", [], UpdateProfile),
    Route(Delete, "/:id", [], DeleteProfile)
  ]

  /** Every profile handler runs for any caller, authenticated or not, with no
      validation. */
  lemma NoGuards(i: int, caller: Caller, valid: Chain -> bool)
    requires 0 <= i < |Table|
    ensures Table[i].guards == []
    ensures Reaches(Table[i].guards, caller, valid)
  {
  }
}
