/** The guard chains of user.routes.js. The validator import is commented out,
    so no user route validates its input. */
module UserRoutes {
  import opened Routing

  /** The router installs no validation chain. */
  datatype Chain = NoChain

  datatype Handler = GetAllUsers | GetUserById | CreateUser | UpdateUser | DeleteUser

  const Table: seq<Route<Chain, Handler>> := [
    Route(Get, "/", [Authenticate], GetAllUsers),
    Route(Get, "/:id", [Authenticate], GetUserById),
    Route(Post, "/", [], CreateUser),
    Route(Put, "/:id", [Authenticate], UpdateUser),
    Route(Delete, "/:id", [Authenticate], DeleteUser)
  ]

  /** `POST /` creates a user for a caller that is not authenticated, whatever
      the input. */
  lemma CreateIsOpen(i: int, caller: Caller, valid: Chain -> bool)
    requires 0 <= i < |Table| && Table[i].handler == CreateUser
    ensures Table[i].verb == Post && Table[i].path == "/"
    ensures Reaches(Table[i].guards, caller, valid)
  {
  }

  /** Every other user route runs `authMiddleware` first, and then nothing else:
      any authenticated caller reaches it, with no admin, self or validation check. */
  lemma OthersNeedOnlyAuthentication(i: int, caller: Caller, valid: Chain -> bool)
    requires 0 <= i < |Table| && Table[i].handler != CreateUser
    ensures Table[i].guards == [Authenticate]
    ensures Reaches(Table[i].guards, caller, valid) <==> caller.authenticated
  {
    AuthFirstGates(Table[i].guards, caller, valid);
  }

  /** No user route has a validation chain or `validator`. */
  lemma NoValidation(i: int, j: int)
    requires 0 <= i < |Table| && 0 <= j < |Table[i].guards|
    ensures !Table[i].guards[j].Validate? && Table[i].guards[j] != Validator
  {
  }
}
