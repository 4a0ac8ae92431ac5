/** The user handlers of user.controller.js over the store, with the profile
    table available to them. As written, the file uses `ProfileModel` without
    importing it, and the include of `getUserById` names `birth_date`, which the
    profile table does not have; the members named `...AsWritten` model that
    version. */
module UserController {
  import opened Wrappers
  import opened Json
  import opened Store
  import U = UserModel
  import Pr = ProfileModel
  import JsString
  import Columns

  /** The attributes the `profile` include of `getAllUsers` asks for. */
  const ListIncludeAttributes: seq<string> := ["first_name", "last_name", "user_id"]

  /** The attributes the `profile` include of `getUserById` asks for as written. */
  const GetIncludeAttributes: seq<string> := ["first_name", "last_name", "birth_date", "user_id"]

  /** A query whose include asks for an attribute the table lacks fails: the
      database reports that the column does not exist. */
  predicate IncludeRuns(attributes: seq<string>) {
    forall i | 0 <= i < |attributes| :: Pr.Declared(attributes[i])
  }

  /** The list's include names only columns of the profile table, and the get's
      names `birth_date`, which the table lacks. */
  lemma IncludesAsWritten()
    ensures IncludeRuns(ListIncludeAttributes)
    ensures !IncludeRuns(GetIncludeAttributes)
  {
    assert Pr.Column.FirstName.Key() == "first_name" && Pr.Column.LastName.Key() == "last_name";
    assert Pr.Column.UserId.Key() == "user_id";
    assert !Pr.Declared("birth_date") by {
      forall c: Pr.Column
        ensures c.Key() != "birth_date"
      {
        match c
        case FirstName => { }
        case LastName => { }
        case UserId => { }
        case Deleted => { }
      }
    }
    assert GetIncludeAttributes[2] == "birth_date";
  }

  /** The include's view of a profile: first_name, last_name and user_id. */
  datatype ProfileBrief = ProfileBrief(firstName: string, lastName: string, userId: Option<int>)

  /** A user as the list returns it: the whole row, password included, and the
      profiles whose `user_id` is the user's id. */
  datatype UserView = UserView(id: int, user: U.User, profiles: map<int, ProfileBrief>)

  /** A user row as create and update return it: the whole row, password included. */
  datatype UserRow = UserRow(id: int, user: U.User)

  function BriefsOf(profiles: map<int, Pr.Profile>, userId: int): (r: map<int, ProfileBrief>)
    ensures r.Keys == ProfilesOf(profiles, userId)
  {
    map id | id in profiles && profiles[id].userId == Some(userId) ::
      ProfileBrief(profiles[id].firstName, profiles[id].lastName, profiles[id].userId)
  }

  /** The columns `createUser` takes from the body. */
  const CreateKeys: set<string> := {"username", "email", "password", "role"}

  /** The row `createUser` inserts; None when the database refuses it. */
  function BuildUser(users: map<int, U.User>, id: int, body: Body): Option<U.User> {
    var d :- U.DecodePatch(Pick(body, CreateKeys));
    var u :- U.NewUser(d);
    if UserFits(users, id, u) then Some(u) else None
  }

  /** What `updateUser` writes: each of the four columns takes the body's value
      when it is truthy, and keeps the stored one otherwise. */
  function MergedBody(u: U.User, body: Body): Body {
    map["username" := OrElse(Field(body, "username"), U.Attr(u, U.Username)),
        "email" := OrElse(Field(body, "email"), U.Attr(u, U.Email)),
        "password" := OrElse(Field(body, "password"), U.Attr(u, U.Password)),
        "role" := OrElse(Field(body, "role"), U.Attr(u, U.RoleColumn))]
  }

  /** The four columns `updateUser` merges. */
  predicate Merged(c: U.Column) {
    c in {U.Username, U.Email, U.Password, U.RoleColumn}
  }

  /** The row after `updateUser`; None when the database refuses it. */
  function MergeUser(users: map<int, U.User>, id: int, u: U.User, body: Body): Option<U.User> {
    var d :- U.DecodePatch(MergedBody(u, body));
    var q := U.ApplyPatch(u, d);
    if UserFits(users, id, q) then Some(q) else None
  }

  /** A created user carries the picked columns as given and the defaults
      elsewhere (role "user", not deleted, no location or coordinates). Other
      keys of the body are ignored. Creation is refused exactly when a picked
      column rejects its value (a username over 20 characters, say), one of
      username, email and password is missing, or another user already holds
      the username or the email. */
  lemma BuildUserMeaning(users: map<int, U.User>, id: int, body: Body)
    ensures BuildUser(users, id, body).None? <==>
      || (exists c: U.Column :: c.Key() in body && c.Key() in CreateKeys && !U.Accepts(c, body[c.Key()]))
      || "username" !in body || "email" !in body || "password" !in body
      || exists other | other in users && other != id ::
           Str(users[other].username) == body["username"] || Str(users[other].email) == body["email"]
    ensures BuildUser(users, id, body).Some? ==>
      var u := BuildUser(users, id, body).value;
      && UserFits(users, id, u)
      && (forall c: U.Column :: U.Attr(u, c) == if c.Key() in body && c.Key() in CreateKeys then body[c.Key()] else U.Default(c))
      && u.establishmentCoordinates.None?
  {
    var picked := Pick(body, CreateKeys);
    U.PatchFails(picked);
    assert forall c: U.Column :: c.Key() in picked <==> c.Key() in body && c.Key() in CreateKeys;
    if d :| U.DecodePatch(picked) == Some(d) {
      U.NewUserRequires(picked, d);
      assert U.Column.Username.Required() && U.Column.Email.Required() && U.Column.Password.Required();
      if u :| U.NewUser(d) == Some(u) {
        U.NewUserAttrs(picked, d, u);
        assert Str(u.username) == body["username"] by {
          assert U.Attr(u, U.Username) == picked["username"];
        }
        assert Str(u.email) == body["email"] by {
          assert U.Attr(u, U.Email) == picked["email"];
        }
      }
    }
  }

  /** `updateUser` replaces each of username, email, password and role exactly
      when the body's value is truthy, stores the password as given (no hashing),
      and keeps every other column. The update is refused exactly when a merged
      value does not fit its column (a password over 255 characters, say) or
      another user already holds the merged username or email. */
  lemma MergeUserMeaning(users: map<int, U.User>, id: int, u: U.User, body: Body)
    ensures MergeUser(users, id, u, body).None? <==>
      || (exists c: U.Column | Merged(c) :: !U.Accepts(c, OrElse(Field(body, c.Key()), U.Attr(u, c))))
      || exists other | other in users && other != id ::
           || Str(users[other].username) == OrElse(Field(body, "username"), U.Attr(u, U.Username))
           || Str(users[other].email) == OrElse(Field(body, "email"), U.Attr(u, U.Email))
    ensures MergeUser(users, id, u, body).Some? ==>
      var q := MergeUser(users, id, u, body).value;
      && UserFits(users, id, q)
      && (forall c: U.Column | Merged(c) :: U.Attr(q, c) == OrElse(Field(body, c.Key()), U.Attr(u, c)))
      && (forall c: U.Column | !Merged(c) :: U.Attr(q, c) == U.Attr(u, c))
      && q.establishmentCoordinates == u.establishmentCoordinates
      && ("password" in body && body["password"].Str? && body["password"].s != "" ==> q.password == body["password"].s)
  {
    var merged := MergedBody(u, body);
    U.PatchFails(merged);
    assert forall c: U.Column :: c.Key() in merged <==> Merged(c);
    forall c: U.Column | Merged(c)
      ensures merged[c.Key()] == OrElse(Field(body, c.Key()), U.Attr(u, c))
    {
    }
    if d :| U.DecodePatch(merged) == Some(d) {
      U.PatchNames(merged, d, u);
      var q := U.ApplyPatch(u, d);
      forall c: U.Column | Merged(c)
        ensures U.Attr(q, c) == OrElse(Field(body, c.Key()), U.Attr(u, c))
      {
        assert c.Key() in merged;
      }
      assert U.Attr(q, U.Password) == merged["password"];
      assert Str(q.username) == merged["username"] by {
        assert U.Attr(q, U.Username) == merged["username"];
      }
      assert Str(q.email) == merged["email"] by {
        assert U.Attr(q, U.Email) == merged["email"];
      }
    }
  }

  /** A body that names none of the four columns with a truthy value leaves a
      stored user (which fits its columns) as it was. */
  lemma FalsyBodyKeepsUser(users: map<int, U.User>, id: int, u: U.User, body: Body)
    requires UniqueUsers(users) && id in users && users[id] == u && U.WithinCaps(u)
    requires forall k | k in body && k in CreateKeys :: !Truthy(body[k])
    ensures MergeUser(users, id, u, body) == Some(u)
  {
    var merged := MergedBody(u, body);
    assert merged == map["username" := Str(u.username), "email" := Str(u.email),
                         "password" := Str(u.password), "role" := U.RoleOrNull(u.role)];
    U.RoleRoundTrip(u.role);
    SameKeysFit(users, id, u);
  }

  /** The listing with the profile include. */
  function UsersListing(users: map<int, U.User>, profiles: map<int, Pr.Profile>): (r: map<int, UserView>)
    ensures forall id :: id in r <==> LiveUser(users, id)
  {
    map id | id in users && !users[id].deleted :: UserView(id, users[id], BriefsOf(profiles, id))
  }

  /** `getAllUsers`: the users whose `deleted` is false, each with its profiles. */
  method GetAllUsers(db: Database) returns (r: Reply<map<int, UserView>>)
    ensures r.status == 200 && r.body.Data?
    ensures forall id :: id in r.body.value <==> LiveUser(db.users, id)
    ensures forall id | id in r.body.value ::
      LiveUser(db.users, id) && r.body.value[id].user == db.users[id] && r.body.value[id].profiles.Keys == ProfilesOf(db.profiles, id)
  {
    r := Reply(200, Data(UsersListing(db.users, db.profiles)));
  }

  /** `getUserById` with the import added and the include asking only for
      columns the profile table has (as the list's does): 200 in every case the
      query runs, with no user when the id is missing or soft-deleted. */
  method GetUserById(db: Database, idText: string) returns (r: Reply<Option<UserView>>)
    ensures PathId(idText).None? ==> r == Reply(500, Message("No se pudo obtener el usuario"))
    ensures PathId(idText).Some? ==>
      r.status == 200 && r.body.Data? && (r.body.value.Some? <==> LiveUser(db.users, PathId(idText).value))
    ensures PathId(idText).Some? && LiveUser(db.users, PathId(idText).value) ==>
      var id := PathId(idText).value;
      r.body == Data(Some(UserView(id, db.users[id], BriefsOf(db.profiles, id))))
  {
    var id := PathId(idText);
    if id.None? {
      return Reply(500, Message("No se pudo obtener el usuario"));
    }
    if id.value in db.users && !db.users[id.value].deleted {
      r := Reply(200, Data(Some(UserView(id.value, db.users[id.value], BriefsOf(db.profiles, id.value)))));
    } else {
      r := Reply(200, Data(None));
    }
  }

  /** `createUser`: one new user from username, email, password and role as
      given, or 500 and no change. */
  method CreateUser(db: Database, body: Body) returns (r: Reply<UserRow>)
    requires db.Valid()
    modifies db
    ensures db.Valid()
    ensures db.plots == old(db.plots) && db.profiles == old(db.profiles)
    ensures db.nextPlotId == old(db.nextPlotId) && db.nextProfileId == old(db.nextProfileId)
    ensures BuildUser(old(db.users), old(db.nextUserId), body).None? ==>
      r == Reply(500, Message("No se pudo crear el usuario")) && db.users == old(db.users) && db.nextUserId == old(db.nextUserId)
    ensures BuildUser(old(db.users), old(db.nextUserId), body).Some? ==>
      var u := BuildUser(old(db.users), old(db.nextUserId), body).value;
      && old(db.nextUserId) !in old(db.users)
      && db.users == old(db.users)[old(db.nextUserId) := u]
      && db.nextUserId == old(db.nextUserId) + 1
      && r == Reply(201, Data(UserRow(old(db.nextUserId), u)))
  {
    var id := db.nextUserId;
    var u := BuildUser(db.users, id, body);
    if u.None? {
      return Reply(500, Message("No se pudo crear el usuario"));
    }
    PutUserKeepsUnique(db.users, id, u.value);
    db.users := db.users[id := u.value];
    db.nextUserId := id + 1;
    r := Reply(201, Data(UserRow(id, u.value)));
  }

  /** `updateUser`: 500 when the user is missing or soft-deleted (the null user
      is dereferenced); otherwise the `||` merge of the four columns. */
  method UpdateUser(db: Database, idText: string, body: Body) returns (r: Reply<UserRow>)
    requires db.Valid()
    modifies db
    ensures db.Valid()
    ensures db.plots == old(db.plots) && db.profiles == old(db.profiles)
    ensures db.nextPlotId == old(db.nextPlotId) && db.nextProfileId == old(db.nextProfileId) && db.nextUserId == old(db.nextUserId)
    ensures PathId(idText).None? || !LiveUser(old(db.users), PathId(idText).value) ==>
      r == Reply(500, Message("No se pudo actualizar el usuario")) && db.users == old(db.users)
    ensures PathId(idText).Some? && LiveUser(old(db.users), PathId(idText).value) ==>
      var id := PathId(idText).value;
      var q := MergeUser(old(db.users), id, old(db.users)[id], body);
      && (q.None? ==> r == Reply(500, Message("No se pudo actualizar el usuario")) && db.users == old(db.users))
      && (q.Some? ==> r == Reply(200, Data(UserRow(id, q.value))) && db.users == old(db.users)[id := q.value])
  {
    var id := PathId(idText);
    if id.None? || !(id.value in db.users && !db.users[id.value].deleted) {
      return Reply(500, Message("No se pudo actualizar el usuario"));
    }
    var q := MergeUser(db.users, id.value, db.users[id.value], body);
    if q.None? {
      return Reply(500, Message("No se pudo actualizar el usuario"));
    }
    PutUserKeepsUnique(db.users, id.value, q.value);
    db.users := db.users[id.value := q.value];
    r := Reply(200, Data(UserRow(id.value, q.value)));
  }

  /** `deleteUser`: 500 when the user is missing or soft-deleted; otherwise every
      profile whose `user_id` is the user's id is destroyed, and then the user gets
      `deleted = true`. */
  method DeleteUser(db: Database, idText: string) returns (r: Reply<UserRow>)
    requires db.Valid()
    modifies db
    ensures db.Valid()
    ensures db.plots == old(db.plots)
    ensures db.nextPlotId == old(db.nextPlotId) && db.nextProfileId == old(db.nextProfileId) && db.nextUserId == old(db.nextUserId)
    ensures PathId(idText).None? || !LiveUser(old(db.users), PathId(idText).value) ==>
      r == Reply(500, Message("No se pudo eliminar el usuario")) && db.users == old(db.users) && db.profiles == old(db.profiles)
    ensures PathId(idText).Some? && LiveUser(old(db.users), PathId(idText).value) ==>
      var id := PathId(idText).value;
      && r == Reply(200, Message("Se eliminó el usuario exitosamente"))
      && db.users == old(db.users)[id := old(db.users)[id].(deleted := true)]
      && db.profiles == old(db.profiles) - ProfilesOf(old(db.profiles), id)
      && ProfilesOf(db.profiles, id) == {}
  {
    var id := PathId(idText);
    if id.None? || !(id.value in db.users && !db.users[id.value].deleted) {
      return Reply(500, Message("No se pudo eliminar el usuario"));
    }
    var gone := ProfilesOf(db.profiles, id.value);
    db.profiles := db.profiles - gone;
    var u := db.users[id.value];
    SameKeysFit(db.users, id.value, u.(deleted := true));
    PutUserKeepsUnique(db.users, id.value, u.(deleted := true));
    db.users := db.users[id.value := u.(deleted := true)];
    r := Reply(200, Message("Se eliminó el usuario exitosamente"));
  }

  // ---------------------------------------------------------------------------
  // As written: `ProfileModel` is not imported, so evaluating it throws a
  // ReferenceError inside the `try` of the three handlers that name it.

  function GetAllUsersAsWritten(users: map<int, U.User>): Reply<map<int, UserView>> {
    Reply(500, Message("No se pudieron obtener los usuarios"))
  }

  /** As written, `getUserById` fails on the missing import; with the import
      added, it still fails whenever its include names a column the profile
      table lacks. */
  function GetUserByIdAsWritten(users: map<int, U.User>, idText: string, imported: bool): Reply<Option<UserView>> {
    if !imported || PathId(idText).None? || !IncludeRuns(GetIncludeAttributes) then Reply(500, Message("No se pudo obtener el usuario"))
    else
      var id := PathId(idText).value;
      Reply(200, Data(if LiveUser(users, id) then Some(UserView(id, users[id], map[])) else None))
  }

  /** Even with the import added, fetching a live user as written fails,
      because the include asks for `birth_date`; asking only for the list's
      attributes, the query runs. */
  lemma BirthDateFails(users: map<int, U.User>, id: int)
    requires LiveUser(users, id) && Columns.InIntRange(id)
    ensures GetUserByIdAsWritten(users, JsString.IntText(id), true).status == 500
    ensures IncludeRuns(ListIncludeAttributes)
    ensures PathId(JsString.IntText(id)) == Some(id)
  {
    IncludesAsWritten();
    PathIdOfText(id);
  }

  /** As written, `deleteUser` fails before any write. */
  function DeleteUserAsWritten(users: map<int, U.User>, idText: string): Reply<UserRow> {
    Reply(500, Message("No se pudo eliminar el usuario"))
  }

  /** With the import missing, listing and fetching users and deleting a live
      user all fail, where the handlers with the import succeed. */
  lemma MissingImportFails(users: map<int, U.User>, profiles: map<int, Pr.Profile>, id: int)
    requires LiveUser(users, id) && Columns.InIntRange(id)
    ensures GetAllUsersAsWritten(users).status == 500
    ensures id in UsersListing(users, profiles)
    ensures GetUserByIdAsWritten(users, JsString.IntText(id), false).status == 500
    ensures PathId(JsString.IntText(id)) == Some(id)
    ensures DeleteUserAsWritten(users, JsString.IntText(id)).status == 500
  {
    PathIdOfText(id);
  }
}
