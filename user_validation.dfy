/** The express-validator chains of user.validations.js, as the list of errors
    each yields. No user route installs them; they are modelled as written. */
module UserValidation {
  import opened Wrappers
  import opened Json
  import opened Rules
  import opened Store
  import JsString
  import Columns
  import U = UserModel

  const IdNotInteger: Option<string> := Some("El id debe ser un número entero")
  const UserNotFound: Option<string> := Some("No se encontró al usuario")
  const UsernameRequired: Option<string> := Some("El nombre de usuario es un campo obligatorio")
  const UsernameLength: Option<string> := Some("El nombre de usuario debe contener entre 3 y 20 caracteres")
  const UsernameTaken: Option<string> := Some("El nombre de usuario ya está en uso")
  const EmailRequired: Option<string> := Some("El email es un campo obligatorio")
  const EmailInvalid: Option<string> := Some("El email debe ser uno válido")
  const EmailLength: Option<string> := Some("El email solo puede tener una longitud de 100 caracteres")
  const EmailTaken: Option<string> := Some("El email ya se encuentra registrado")
  const PasswordRequired: Option<string> := Some("La contraseña es un campo obligatorio")
  const PasswordLength: Option<string> := Some("La contraseña debe tener al menos 6 caracteres")
  const RoleEmpty: Option<string> := Some("El rol no puede estar vacío")
  const RoleInvalid: Option<string> := Some("los roles solo pueden ser user o admin")
  const LocationLength: Option<string> := Some("La localización no puede superar los 255 caracteres")
  const CoordinatesNotString: Option<string> := Some("Las coordenadas deben ser un string")

  const RoleNames: seq<string> := ["user", "admin"]

  /** The custom id check: `findByPk(value)`, and also `user.deleted` when `live`
      is set (get checks it; update and delete do not). */
  function UserExists(users: map<int, U.User>, idText: string, live: bool): (r: Check)
    ensures r.ok <==> PathId(idText).Some? && PathId(idText).value in users && (live ==> !users[PathId(idText).value].deleted)
  {
    match PkLookup(Some(Str(idText)))
    case LookupThrows => Check(false, None)
    case NotFound => Check(false, UserNotFound)
    case Found(id) => Check(id in users && (live ==> !users[id].deleted), UserNotFound)
  }

  function IdIssues(users: map<int, U.User>, idText: string, live: bool, o: Oracles): seq<Issue> {
    Failures("id", [Check(IsInt(Some(Str(idText)), o), IdNotInteger), UserExists(users, idText, live)])
  }

  function GetUserIssues(users: map<int, U.User>, idText: string, o: Oracles): seq<Issue> {
    IdIssues(users, idText, true, o)
  }

  function DeleteUserIssues(users: map<int, U.User>, idText: string, o: Oracles): seq<Issue> {
    IdIssues(users, idText, false, o)
  }

  lemma IdPassesExactly(users: map<int, U.User>, idText: string, live: bool, o: Oracles)
    ensures IdIssues(users, idText, live, o) == [] <==> PathId(idText).Some? && PathId(idText).value in users && (live ==> !users[PathId(idText).value].deleted)
  {
    TextOfString(idText, o);
    FailuresOfTwo("id", Check(IsInt(Some(Str(idText)), o), IdNotInteger), UserExists(users, idText, live));
  }

  /** Get passes exactly for a live user; delete passes for any stored user,
      soft-deleted ones included. */
  lemma GetAndDeleteIds(users: map<int, U.User>, idText: string, o: Oracles)
    ensures GetUserIssues(users, idText, o) == [] <==> PathId(idText).Some? && LiveUser(users, PathId(idText).value)
    ensures DeleteUserIssues(users, idText, o) == [] <==> PathId(idText).Some? && PathId(idText).value in users
  {
    IdPassesExactly(users, idText, true, o);
    IdPassesExactly(users, idText, false, o);
  }

  /** The uniqueness check: `findOne` on the column finds nothing, with the
      id `except` names left out. */
  function Free(users: map<int, U.User>, c: U.Column, v: Option<Json>, except: Option<Option<int>>, message: Option<string>): (r: Check)
    ensures r.ok <==> FindExcept(users, c, v, except) == Miss
    ensures !r.ok && FindExcept(users, c, v, except) == Hit ==> r.message == message
  {
    match FindExcept(users, c, v, except)
    case Miss => Check(true, message)
    case Hit => Check(false, message)
    case SearchThrows => Check(false, None)
  }

  /** On update the uniqueness check ignores exactly the user being updated:
      it passes when no other user holds the value, whatever that user holds. */
  lemma UpdateUniquenessExcludesSelf(users: map<int, U.User>, idText: string, c: U.Column, s: string, message: Option<string>)
    requires PathId(idText).Some?
    ensures Free(users, c, Some(Str(s)), Some(PathId(idText)), message).ok <==> forall id | id in users && id != PathId(idText).value :: U.Attr(users[id], c) != Str(s)
  {
  }

  /** On create the uniqueness check looks at every user, soft-deleted ones included. */
  lemma CreateUniquenessCoversAll(users: map<int, U.User>, c: U.Column, s: string, message: Option<string>)
    ensures Free(users, c, Some(Str(s)), None, message).ok <==> forall id | id in users :: U.Attr(users[id], c) != Str(s)
  {
  }

  /** A user keeping its own username passes the update's uniqueness check. */
  lemma OwnUsernamePasses(users: map<int, U.User>, n: int, message: Option<string>)
    requires UniqueUsers(users) && n in users && Columns.InIntRange(n)
    ensures Free(users, U.Username, Some(Str(users[n].username)), Some(PathId(JsString.IntText(n))), message).ok
  {
    PathIdOfText(n);
    JsString.IntTextRoundTrip(n);
    UpdateUniquenessExcludesSelf(users, JsString.IntText(n), U.Username, users[n].username, message);
  }

  function UsernameChecks(users: map<int, U.User>, body: Body, except: Option<Option<int>>, o: Oracles): seq<Check> {
    var v := Field(body, "username");
    var trimmed := Some(Trimmed(v, o));
    [Check(NotEmpty(v, o), UsernameRequired), Check(LengthIn(trimmed, o, 3, Some(20)), UsernameLength),
     Free(users, U.Username, trimmed, except, UsernameTaken)]
  }

  function EmailChecks(users: map<int, U.User>, body: Body, except: Option<Option<int>>, o: Oracles): seq<Check> {
    var v := Field(body, "email");
    [Check(NotEmpty(v, o), EmailRequired), Check(IsEmail(v, o), EmailInvalid),
     Check(LengthIn(v, o, 0, Some(100)), EmailLength), Free(users, U.Email, v, except, EmailTaken)]
  }

  function PasswordChecks(body: Body, o: Oracles): seq<Check> {
    var v := Field(body, "password");
    [Check(NotEmpty(v, o), PasswordRequired), Check(LengthIn(v, o, 6, None), PasswordLength)]
  }

  /** The optional chains create and update share. */
  function TailIssues(body: Body, o: Oracles): seq<Issue> {
    var role := Field(body, "role");
    var location := Field(body, "establishmentLocation");
    var coordinates := Field(body, "establishmentCoordinates");
    OptionalFailures("role", role, [Check(NotEmpty(role, o), RoleEmpty), Check(IsIn(role, o, RoleNames), RoleInvalid)])
    + OptionalFailures("establishmentLocation", location, [Check(LengthIn(location, o, 0, Some(255)), LocationLength)])
    + OptionalFailures("establishmentCoordinates", coordinates, [Check(IsString(coordinates), CoordinatesNotString)])
  }

  /** `createUserValidation`. The username is trimmed before its length and
      uniqueness are checked. */
  function CreateUserIssues(users: map<int, U.User>, body: Body, o: Oracles): seq<Issue> {
    Failures("username", UsernameChecks(users, body, None, o))
    + Failures("email", EmailChecks(users, body, None, o))
    + Failures("password", PasswordChecks(body, o))
    + TailIssues(body, o)
  }

  /** `updateUserValidation`: the id chain, then every body chain optional, the
      uniqueness checks leaving the path's user out. */
  function UpdateUserIssues(users: map<int, U.User>, idText: string, body: Body, o: Oracles): seq<Issue> {
    var except := Some(PathId(idText));
    IdIssues(users, idText, false, o)
    + OptionalFailures("username", Field(body, "username"), UsernameChecks(users, body, except, o))
    + OptionalFailures("email", Field(body, "email"), EmailChecks(users, body, except, o))
    + OptionalFailures("password", Field(body, "password"), PasswordChecks(body, o))
    + TailIssues(body, o)
  }

  /** What the role, location and coordinates chains guarantee when they pass. */
  lemma TailMeaning(body: Body, o: Oracles)
    requires TailIssues(body, o) == []
    ensures "role" in body && body["role"].Str? ==> body["role"].s in RoleNames && body["role"].s != ""
    ensures "establishmentLocation" in body && body["establishmentLocation"].Str? ==> |body["establishmentLocation"].s| <= 255
    ensures "establishmentCoordinates" in body ==> body["establishmentCoordinates"].Str?
  {
    var role := Field(body, "role");
    var location := Field(body, "establishmentLocation");
    var coordinates := Field(body, "establishmentCoordinates");
    var roleChecks := [Check(NotEmpty(role, o), RoleEmpty), Check(IsIn(role, o, RoleNames), RoleInvalid)];
    var locationChecks := [Check(LengthIn(location, o, 0, Some(255)), LocationLength)];
    var coordinateChecks := [Check(IsString(coordinates), CoordinatesNotString)];
    assert OptionalFailures("role", role, roleChecks) == [];
    assert OptionalFailures("establishmentLocation", location, locationChecks) == [];
    assert OptionalFailures("establishmentCoordinates", coordinates, coordinateChecks) == [];
    if "role" in body && body["role"].Str? {
      assert roleChecks[0].ok && roleChecks[1].ok;
      TextOfString(body["role"].s, o);
    }
    if "establishmentLocation" in body && body["establishmentLocation"].Str? {
      assert locationChecks[0].ok;
      TextOfString(body["establishmentLocation"].s, o);
    }
    if "establishmentCoordinates" in body {
      assert coordinateChecks[0].ok;
    }
  }

  /** What the username chain guarantees when it passes: the trimmed username
      has 3 to 20 characters and no user outside `except` holds it. */
  lemma UsernameMeaning(users: map<int, U.User>, body: Body, except: Option<Option<int>>, o: Oracles)
    requires Failures("username", UsernameChecks(users, body, except, o)) == []
    ensures Trimmed(Field(body, "username"), o).Str?
    ensures var t := Trimmed(Field(body, "username"), o).s;
      3 <= |t| <= 20 && forall id | id in users && Some(Some(id)) != except :: users[id].username != t
  {
    var checks := UsernameChecks(users, body, except, o);
    assert checks[1].ok && checks[2].ok;
    var trimmed := Trimmed(Field(body, "username"), o);
    assert trimmed.Str?;
    TextOfString(trimmed.s, o);
    forall id | id in users && Some(Some(id)) != except
      ensures users[id].username != trimmed.s
    {
      assert U.Attr(users[id], U.Username) != trimmed;
    }
  }

  /** What the email chain guarantees when it passes: the email is a string the
      email test accepts, at most 100 characters, held by no user outside `except`. */
  lemma EmailMeaning(users: map<int, U.User>, body: Body, except: Option<Option<int>>, o: Oracles)
    requires Failures("email", EmailChecks(users, body, except, o)) == []
    ensures "email" in body && body["email"].Str?
    ensures var e := body["email"].s;
      o.isEmail(e) && |e| <= 100 && forall id | id in users && Some(Some(id)) != except :: users[id].email != e
  {
    var checks := EmailChecks(users, body, except, o);
    assert checks[0].ok && checks[1].ok && checks[2].ok && checks[3].ok;
    assert "" in Texts(Some(Null), o);
    var e := body["email"].s;
    TextOfString(e, o);
    forall id | id in users && Some(Some(id)) != except
      ensures users[id].email != e
    {
      assert U.Attr(users[id], U.Email) != Str(e);
    }
  }

  /** A body that passes create validation has a fresh trimmed username of 3
      to 20 characters, a fresh valid email, a password of at least 6
      characters, and a valid role when it has one. */
  lemma CreatePassMeaning(users: map<int, U.User>, body: Body, o: Oracles)
    requires CreateUserIssues(users, body, o) == []
    ensures Trimmed(Field(body, "username"), o).Str?
    ensures var t := Trimmed(Field(body, "username"), o).s;
      3 <= |t| <= 20 && forall id | id in users :: users[id].username != t
    ensures "email" in body && body["email"].Str?
    ensures var e := body["email"].s;
      o.isEmail(e) && |e| <= 100 && forall id | id in users :: users[id].email != e
    ensures "password" in body && (body["password"].Str? ==> |body["password"].s| >= 6)
    ensures "role" in body && body["role"].Str? ==> body["role"].s in RoleNames
  {
    assert Failures("username", UsernameChecks(users, body, None, o)) == [];
    assert Failures("email", EmailChecks(users, body, None, o)) == [];
    assert Failures("password", PasswordChecks(body, o)) == [];
    assert TailIssues(body, o) == [];
    UsernameMeaning(users, body, None, o);
    EmailMeaning(users, body, None, o);
    PasswordMeaning(body, o);
    TailMeaning(body, o);
  }

  lemma PasswordMeaning(body: Body, o: Oracles)
    requires Failures("password", PasswordChecks(body, o)) == []
    ensures "password" in body && (body["password"].Str? ==> |body["password"].s| >= 6)
  {
    var checks := PasswordChecks(body, o);
    assert checks[0].ok && checks[1].ok;
    assert "" in Texts(None, o);
    if "password" in body && body["password"].Str? {
      TextOfString(body["password"].s, o);
    }
  }

  /** A body that passes update validation: the path names a stored user (soft-
      deleted ones pass); a given username or email is held by no other user; a
      given password has at least 6 characters. */
  lemma UpdatePassMeaning(users: map<int, U.User>, idText: string, body: Body, o: Oracles)
    requires UpdateUserIssues(users, idText, body, o) == []
    ensures PathId(idText).Some? && PathId(idText).value in users
    ensures "username" in body ==> Trimmed(Field(body, "username"), o).Str? && forall id | id in users && id != PathId(idText).value :: users[id].username != Trimmed(Field(body, "username"), o).s
    ensures "email" in body ==> body["email"].Str? && forall id | id in users && id != PathId(idText).value :: users[id].email != body["email"].s
    ensures "password" in body && body["password"].Str? ==> |body["password"].s| >= 6
  {
    var except := Some(PathId(idText));
    assert IdIssues(users, idText, false, o) == [];
    IdPassesExactly(users, idText, false, o);
    assert OptionalFailures("username", Field(body, "username"), UsernameChecks(users, body, except, o)) == [];
    assert OptionalFailures("email", Field(body, "email"), EmailChecks(users, body, except, o)) == [];
    assert OptionalFailures("password", Field(body, "password"), PasswordChecks(body, o)) == [];
    if "username" in body {
      UsernameMeaning(users, body, except, o);
    }
    if "email" in body {
      EmailMeaning(users, body, except, o);
    }
    if "password" in body {
      PasswordMeaning(body, o);
    }
  }
}
