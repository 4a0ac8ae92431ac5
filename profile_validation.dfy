/** The express-validator chains of profile.validations.js, as the list of
    errors each yields. No profile route installs them; they are modelled as
    written. */
module ProfileValidation {
  import opened Wrappers
  import opened Json
  import opened Rules
  import opened Store
  import JsString
  import U = UserModel
  import Pr = ProfileModel
  import ProfileController

  const IdNotInteger: Option<string> := Some("El id debe ser un número entero")
  const ProfileNotFound: Option<string> := Some("No se encontró el perfil")
  const FirstNameRequired: Option<string> := Some("El nombre es obligatorio")
  const FirstNameLength: Option<string> := Some("El nombre debe tener entre 2 y 50 caracteres")
  const LastNameRequired: Option<string> := Some("El apellido es obligatorio")
  const LastNameLength: Option<string> := Some("El apellido debe tener entre 2 y 50 caracteres")
  const UserIdRequired: Option<string> := Some("El user_id es obligatorio")
  const UserIdNotInteger: Option<string> := Some("El user_id debe ser un número entero")
  const UserNotFound: Option<string> := Some("No se encontró el usuario asociado")
  const AlreadyHasProfile: Option<string> := Some("El usuario ya tiene un perfil")

  /** Some profile that is not soft-deleted belongs to user `userId`. */
  predicate HasLiveProfile(profiles: map<int, Pr.Profile>, userId: int) {
    exists pid | pid in profiles :: profiles[pid].userId == Some(userId) && !profiles[pid].deleted
  }

  /** At most one profile that is not soft-deleted per user. */
  predicate OneLiveProfilePerUser(profiles: map<int, Pr.Profile>) {
    forall a, b | a in profiles && b in profiles && !profiles[a].deleted && !profiles[b].deleted && profiles[a].userId.Some? && profiles[a].userId == profiles[b].userId :: a == b
  }

  function ProfileExists(profiles: map<int, Pr.Profile>, idText: string): (r: Check)
    ensures r.ok <==> PathId(idText).Some? && LiveProfile(profiles, PathId(idText).value)
  {
    match PkLookup(Some(Str(idText)))
    case LookupThrows => Check(false, None)
    case NotFound => Check(false, ProfileNotFound)
    case Found(id) => Check(LiveProfile(profiles, id), ProfileNotFound)
  }

  /** The id chain get, update and delete share. */
  function IdIssues(profiles: map<int, Pr.Profile>, idText: string, o: Oracles): seq<Issue> {
    Failures("id", [Check(IsInt(Some(Str(idText)), o), IdNotInteger), ProfileExists(profiles, idText)])
  }

  /** Get, update and delete pass the id exactly for a live profile. */
  lemma IdPassesExactly(profiles: map<int, Pr.Profile>, idText: string, o: Oracles)
    ensures IdIssues(profiles, idText, o) == [] <==> PathId(idText).Some? && LiveProfile(profiles, PathId(idText).value)
  {
    TextOfString(idText, o);
    FailuresOfTwo("id", Check(IsInt(Some(Str(idText)), o), IdNotInteger), ProfileExists(profiles, idText));
  }

  /** The custom `user_id` check: the user exists and is not soft-deleted, and
      has no live profile yet. */
  function UserAvailable(users: map<int, U.User>, profiles: map<int, Pr.Profile>, v: Option<Json>): (r: Check)
    ensures r.ok <==> PkLookup(v).Found? && LiveUser(users, PkLookup(v).id) && !HasLiveProfile(profiles, PkLookup(v).id)
    ensures PkLookup(v).Found? && LiveUser(users, PkLookup(v).id) && HasLiveProfile(profiles, PkLookup(v).id) ==> r == Check(false, AlreadyHasProfile)
  {
    match PkLookup(v)
    case LookupThrows => Check(false, None)
    case NotFound => Check(false, UserNotFound)
    case Found(id) =>
      if !LiveUser(users, id) then Check(false, UserNotFound)
      else if HasLiveProfile(profiles, id) then Check(false, AlreadyHasProfile)
      else Check(true, None)
  }

  function NameChecks(body: Body, field: string, required: Option<string>, length: Option<string>, o: Oracles): seq<Check> {
    var v := Field(body, field);
    [Check(NotEmpty(v, o), required), Check(LengthIn(v, o, 2, Some(50)), length)]
  }

  function UserIdChecks(users: map<int, U.User>, profiles: map<int, Pr.Profile>, body: Body, o: Oracles): seq<Check> {
    var v := Field(body, "user_id");
    [Check(NotEmpty(v, o), UserIdRequired), Check(IsInt(v, o), UserIdNotInteger), UserAvailable(users, profiles, v)]
  }

  function CreateProfileIssues(users: map<int, U.User>, profiles: map<int, Pr.Profile>, body: Body, o: Oracles): seq<Issue> {
    Failures("first_name", NameChecks(body, "first_name", FirstNameRequired, FirstNameLength, o))
    + Failures("last_name", NameChecks(body, "last_name", LastNameRequired, LastNameLength, o))
    + Failures("user_id", UserIdChecks(users, profiles, body, o))
  }

  function UpdateProfileIssues(profiles: map<int, Pr.Profile>, idText: string, body: Body, o: Oracles): seq<Issue> {
    IdIssues(profiles, idText, o)
    + OptionalFailures("first_name", Field(body, "first_name"), NameChecks(body, "first_name", FirstNameRequired, FirstNameLength, o))
    + OptionalFailures("last_name", Field(body, "last_name"), NameChecks(body, "last_name", LastNameRequired, LastNameLength, o))
  }

  /** A name chain that passes: the field is given, and a string has 2 to 50 characters. */
  lemma NameMeaning(body: Body, field: string, required: Option<string>, length: Option<string>, o: Oracles)
    requires Failures(field, NameChecks(body, field, required, length, o)) == []
    ensures field in body
    ensures body[field].Str? ==> 2 <= |body[field].s| <= 50
  {
    var checks := NameChecks(body, field, required, length, o);
    assert checks[0].ok && checks[1].ok;
    assert "" in Texts(None, o);
    if body[field].Str? {
      TextOfString(body[field].s, o);
    }
  }

  /** A body that passes create validation has both names of 2 to 50
      characters and names a live user that has no live profile. */
  lemma CreatePassMeaning(users: map<int, U.User>, profiles: map<int, Pr.Profile>, body: Body, o: Oracles)
    requires CreateProfileIssues(users, profiles, body, o) == []
    ensures "first_name" in body && (body["first_name"].Str? ==> 2 <= |body["first_name"].s| <= 50)
    ensures "last_name" in body && (body["last_name"].Str? ==> 2 <= |body["last_name"].s| <= 50)
    ensures PkLookup(Field(body, "user_id")).Found?
    ensures var id := PkLookup(Field(body, "user_id")).id; LiveUser(users, id) && !HasLiveProfile(profiles, id)
  {
    assert Failures("first_name", NameChecks(body, "first_name", FirstNameRequired, FirstNameLength, o)) == [];
    assert Failures("last_name", NameChecks(body, "last_name", LastNameRequired, LastNameLength, o)) == [];
    var checks := UserIdChecks(users, profiles, body, o);
    assert Failures("user_id", checks) == [];
    assert checks[2].ok;
    NameMeaning(body, "first_name", FirstNameRequired, FirstNameLength, o);
    NameMeaning(body, "last_name", LastNameRequired, LastNameLength, o);
  }

  /** Inserting the profile of a body that passed create validation keeps at
      most one live profile per user. */
  lemma CreateKeepsOneProfilePerUser(users: map<int, U.User>, profiles: map<int, Pr.Profile>, body: Body, o: Oracles, newId: int)
    requires OneLiveProfilePerUser(profiles) && newId !in profiles
    requires CreateProfileIssues(users, profiles, body, o) == []
    requires ProfileController.BuildProfile(users, body).Some?
    ensures OneLiveProfilePerUser(profiles[newId := ProfileController.BuildProfile(users, body).value])
  {
    var p := ProfileController.BuildProfile(users, body).value;
    CreatePassMeaning(users, profiles, body, o);
    ProfileController.BuildProfileMeaning(users, body);
    var id := PkLookup(Field(body, "user_id")).id;
    assert Pr.Attr(p, Pr.Column.UserId) == body["user_id"];
    assert id as real == body["user_id"].x;
    assert p.userId == Some(id);
  }

  /** On update the names are optional; a given name passes only when it is
      given with 2 to 50 characters, and the id must be a live profile. */
  lemma UpdatePassMeaning(profiles: map<int, Pr.Profile>, idText: string, body: Body, o: Oracles)
    requires UpdateProfileIssues(profiles, idText, body, o) == []
    ensures PathId(idText).Some? && LiveProfile(profiles, PathId(idText).value)
    ensures "first_name" in body && body["first_name"].Str? ==> 2 <= |body["first_name"].s| <= 50
    ensures "last_name" in body && body["last_name"].Str? ==> 2 <= |body["last_name"].s| <= 50
  {
    IdPassesExactly(profiles, idText, o);
    assert IdIssues(profiles, idText, o) == [];
    assert OptionalFailures("first_name", Field(body, "first_name"), NameChecks(body, "first_name", FirstNameRequired, FirstNameLength, o)) == [];
    assert OptionalFailures("last_name", Field(body, "last_name"), NameChecks(body, "last_name", LastNameRequired, LastNameLength, o)) == [];
    if "first_name" in body {
      NameMeaning(body, "first_name", FirstNameRequired, FirstNameLength, o);
    }
    if "last_name" in body {
      NameMeaning(body, "last_name", LastNameRequired, LastNameLength, o);
    }
  }

  /** An empty update body passes exactly when the id names a live profile. */
  lemma EmptyUpdatePasses(profiles: map<int, Pr.Profile>, idText: string, o: Oracles)
    ensures UpdateProfileIssues(profiles, idText, map[], o) == [] <==> PathId(idText).Some? && LiveProfile(profiles, PathId(idText).value)
  {
    IdPassesExactly(profiles, idText, o);
  }
}
