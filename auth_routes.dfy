/** The guard chains of auth.routes.js. */
module AuthRoutes {
  import opened Routing

  datatype Chain = NoChain

  datatype Handler = Register | Login | Logout | MyProfile | MyPlots

  /** `myProfile` and `myPlots` are imported by the router, while
      auth.controller.js defines neither (it exports `me`). */
  predicate Defined(h: Handler) {
    h != MyProfile && h != MyPlots
  }

  const Table: seq<Route<Chain, Handler>> := [
    Route(Post, "/register", [], Register),
    Route(Post, "/login", [], Login),
    Route(Post, "/logout", [Authenticate], Logout),
    Route(Get, "/my-profile", [Authenticate], MyProfile),
    Route(Get, "/my-plots", [Authenticate], MyPlots)
  ]

  /** Registering and logging in need no token; logging out does. */
  lemma LogoutNeedsAuthentication(caller: Caller, valid: Chain -> bool)
    ensures Reaches(Table[0].guards, caller, valid) && Reaches(Table[1].guards, caller, valid)
    ensures Table[2].handler == Logout && (Reaches(Table[2].guards, caller, valid) <==> caller.authenticated)
  {
    AuthFirstGates(Table[2].guards, caller, valid);
  }

  /** The two `GET` routes name handlers that are not defined. */
  lemma UndefinedHandlers(i: int)
    requires 0 <= i < |Table|
    ensures Defined(Table[i].handler) <==> Table[i].verb == Post
  {
  }
}
