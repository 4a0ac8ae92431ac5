/** The database behind the handlers: the plot, user and profile tables, each
    a map from id to row with its next id, and the constraints the database
    enforces on every write.

    - username and email are each unique among all users (soft-deleted ones included);
    - a plot's `ownerId` names an existing user;
    - a profile's `user_id`, when set, names an existing user;
    - every row fits the length caps and integer range of its columns.

    A write that would break these is refused: the handler's `await` throws and
    its `catch` answers 500. Rows destroyed through the `paranoid` option are
    gone from every default query, so `destroy()` removes the row from the map;
    the `deleted` flag is a separate column that only the handlers set. */
module Store {
  import opened Wrappers
  import opened Json
  import JsString
  import Columns
  import P = PlotModel
  import U = UserModel
  import Pr = ProfileModel

  predicate IdsBelow<T>(m: map<int, T>, next: int) {
    forall id | id in m :: 1 <= id < next
  }

  /** No two users share a username, and no two share an email. */
  predicate UniqueUsers(users: map<int, U.User>) {
    forall a, b | a in users && b in users && a != b ::
      users[a].username != users[b].username && users[a].email != users[b].email
  }

  /** The unique indexes admit `u` as the row with id `id`. */
  predicate UserFits(users: map<int, U.User>, id: int, u: U.User) {
    forall other | other in users && other != id ::
      users[other].username != u.username && users[other].email != u.email
  }

  predicate OwnersExist(plots: map<int, P.Plot>, users: map<int, U.User>) {
    forall id | id in plots :: plots[id].ownerId in users
  }

  predicate ProfileUsersExist(profiles: map<int, Pr.Profile>, users: map<int, U.User>) {
    forall id | id in profiles :: profiles[id].userId.Some? ==> profiles[id].userId.value in users
  }

  /** Writing a row the unique indexes admit keeps the users unique. */
  lemma PutUserKeepsUnique(users: map<int, U.User>, id: int, u: U.User)
    requires UniqueUsers(users) && UserFits(users, id, u)
    ensures UniqueUsers(users[id := u])
  {
  }

  /** A user row whose username and email are unchanged still fits. */
  lemma SameKeysFit(users: map<int, U.User>, id: int, u: U.User)
    requires UniqueUsers(users) && id in users
    requires u.username == users[id].username && u.email == users[id].email
    ensures UserFits(users, id, u)
  {
  }

  /** How the database reads an id taken from the URL path as an `INTEGER`: the
      integer of an integer text within the 32-bit range; any other text,
      "99999999999" included, makes the query raise. */
  function PathId(t: string): (r: Option<int>)
    ensures r.Some? <==> JsString.IsIntText(t) && Columns.InIntRange(JsString.IntValue(t))
    ensures r.Some? ==> r.value == JsString.IntValue(t)
  {
    if JsString.IsIntText(t) && Columns.InIntRange(JsString.IntValue(t)) then Some(JsString.IntValue(t)) else None
  }

  /** The path of an id in the integer range reads back as that id, and the
      path of any other integer makes the query raise. */
  lemma PathIdOfText(n: int)
    ensures PathId(JsString.IntText(n)) == if Columns.InIntRange(n) then Some(n) else None
  {
    JsString.IntTextRoundTrip(n);
  }

  predicate LivePlot(plots: map<int, P.Plot>, id: int) {
    id in plots && !plots[id].deleted
  }

  predicate LiveUser(users: map<int, U.User>, id: int) {
    id in users && !users[id].deleted
  }

  predicate LiveProfile(profiles: map<int, Pr.Profile>, id: int) {
    id in profiles && !profiles[id].deleted
  }

  /** The ids of the profiles whose `user_id` is `userId`. */
  function ProfilesOf(profiles: map<int, Pr.Profile>, userId: int): (r: set<int>)
    ensures forall id :: id in r <==> id in profiles && profiles[id].userId == Some(userId)
  {
    set id | id in profiles && profiles[id].userId == Some(userId)
  }

  /** How `findByPk(value)` reads its argument against the `INTEGER` id:
      `undefined` and `null` find nothing; a number is compared with the ids, so
      only an integral one within the 32-bit range can be an id, and any other
      number finds nothing; a text is read as an integer, so an integer text
      within the range is an id and any other text makes the lookup throw, as
      does a value of any other kind. */
  datatype Lookup = NotFound | Found(id: int) | LookupThrows

  function PkLookup(v: Option<Json>): (r: Lookup)
    ensures r.Found? ==> Columns.InIntRange(r.id)
    ensures v.Some? && v.value.Str? ==> (r.Found? <==> PathId(v.value.s).Some?)
    ensures v.Some? && v.value.Str? ==> (r.LookupThrows? <==> PathId(v.value.s).None?)
    ensures v.Some? && v.value.Str? && r.Found? ==> r.id == JsString.IntValue(v.value.s)
    ensures v.Some? && v.value.Num? ==> r.Found? == Columns.AsInt(v.value).Some? && !r.LookupThrows?
    ensures r.Found? && v.Some? && v.value.Num? ==> r.id as real == v.value.x
    ensures v.None? || v == Some(Null) ==> r == NotFound
  {
    if v.None? then NotFound
    else match v.value
      case Null => NotFound
      case Num(_) => if Columns.AsInt(v.value).Some? then Found(Columns.AsInt(v.value).value) else NotFound
      case Str(s) => if PathId(s).Some? then Found(PathId(s).value) else LookupThrows
      case _ => LookupThrows
  }

  /** What `UserModel.findOne({ where: { column: value } })` finds among all
      users, soft-deleted ones included: `undefined` in a WHERE throws, `null`
      matches no row (the column is NOT NULL), and a value of another kind than
      a string makes the query throw. `except`, when given, is the id an
      `id: { [Op.ne]: ... }` condition excludes; None there is an id text the
      database cannot read, which makes the query throw. */
  datatype Search = Hit | Miss | SearchThrows

  function FindExcept(users: map<int, U.User>, c: U.Column, v: Option<Json>, except: Option<Option<int>>): (r: Search)
    ensures r == Hit <==> v.Some? && v.value.Str? && except != Some(None) && exists id | id in users && Some(Some(id)) != except :: U.Attr(users[id], c) == v.value
    ensures r == Miss <==> v.Some? && except != Some(None) && (v.value == Null || (v.value.Str? && forall id | id in users && Some(Some(id)) != except :: U.Attr(users[id], c) != v.value))
  {
    if v.None? then SearchThrows
    else if v.value == Null then (if except == Some(None) then SearchThrows else Miss)
    else if !v.value.Str? || except == Some(None) then SearchThrows
    else if exists id | id in users && Some(Some(id)) != except :: U.Attr(users[id], c) == v.value then Hit
    else Miss
  }

  /** `findOne` with no id excluded. */
  function Find(users: map<int, U.User>, c: U.Column, v: Option<Json>): (r: Search)
    ensures r == Hit <==> v.Some? && v.value.Str? && exists id | id in users :: U.Attr(users[id], c) == v.value
    ensures r == Miss <==> v.Some? && (v.value == Null || (v.value.Str? && forall id | id in users :: U.Attr(users[id], c) != v.value))
  {
    FindExcept(users, c, v, None)
  }

  /** The constraints above, over the three tables and their next ids. */
  ghost predicate Consistent(users: map<int, U.User>, profiles: map<int, Pr.Profile>, plots: map<int, P.Plot>,
                             nextUserId: int, nextProfileId: int, nextPlotId: int)
  {
    && 1 <= nextUserId && 1 <= nextProfileId && 1 <= nextPlotId
    && IdsBelow(users, nextUserId) && IdsBelow(profiles, nextProfileId) && IdsBelow(plots, nextPlotId)
    && UniqueUsers(users)
    && OwnersExist(plots, users)
    && ProfileUsersExist(profiles, users)
    && (forall id | id in users :: U.WithinCaps(users[id]))
    && (forall id | id in profiles :: Pr.WithinCaps(profiles[id]))
    && (forall id | id in plots :: P.WithinCaps(plots[id]))
  }

  /** Inserting a user the unique indexes admit under the next id keeps the
      tables consistent. */
  lemma InsertUserConsistent(users: map<int, U.User>, profiles: map<int, Pr.Profile>, plots: map<int, P.Plot>,
                             nextUserId: int, nextProfileId: int, nextPlotId: int, u: U.User)
    requires Consistent(users, profiles, plots, nextUserId, nextProfileId, nextPlotId)
    requires UserFits(users, nextUserId, u) && U.WithinCaps(u)
    ensures nextUserId !in users
    ensures Consistent(users[nextUserId := u], profiles, plots, nextUserId + 1, nextProfileId, nextPlotId)
  {
    PutUserKeepsUnique(users, nextUserId, u);
  }

  /** Inserting a profile whose user exists under the next id keeps the tables
      consistent. */
  lemma InsertProfileConsistent(users: map<int, U.User>, profiles: map<int, Pr.Profile>, plots: map<int, P.Plot>,
                                nextUserId: int, nextProfileId: int, nextPlotId: int, p: Pr.Profile)
    requires Consistent(users, profiles, plots, nextUserId, nextProfileId, nextPlotId)
    requires Pr.WithinCaps(p) && (p.userId.Some? ==> p.userId.value in users)
    ensures nextProfileId !in profiles
    ensures Consistent(users, profiles[nextProfileId := p], plots, nextUserId, nextProfileId + 1, nextPlotId)
  {
  }

  class Database {
    var users: map<int, U.User>
    var profiles: map<int, Pr.Profile>
    var plots: map<int, P.Plot>
    var nextUserId: int
    var nextProfileId: int
    var nextPlotId: int

    ghost predicate Valid()
      reads this
    {
      Consistent(users, profiles, plots, nextUserId, nextProfileId, nextPlotId)
    }

    constructor ()
      ensures Valid()
      ensures users == map[] && profiles == map[] && plots == map[]
    {
      users := map[];
      profiles := map[];
      plots := map[];
      nextUserId := 1;
      nextProfileId := 1;
      nextPlotId := 1;
    }
  }
}
