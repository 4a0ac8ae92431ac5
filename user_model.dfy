/** The user table of user.model.js: the record, its role enum, the JSON view
    of each column, and how a request body becomes a new or updated row. */
module UserModel {
  import opened Wrappers
  import opened Json
  import opened Columns

  /** `ENUM('user', 'admin')`. */
  datatype Role = Regular | Admin

  function RoleText(r: Role): string {
    match r
    case Regular => "user"
    case Admin => "admin"
  }

  /** The role column is nullable: `null` is accepted as no role. */
  function AsRole(j: Json): Option<Option<Role>> {
    if j == Null then Some(None)
    else if j == Str("user") then Some(Some(Regular))
    else if j == Str("admin") then Some(Some(Admin))
    else None
  }

  function RoleOrNull(r: Option<Role>): Json {
    if r.Some? then Str(RoleText(r.value)) else Null
  }

  /** Every role, and no role, reads back as itself. */
  lemma RoleRoundTrip(r: Option<Role>)
    ensures AsRole(RoleOrNull(r)) == Some(r)
  {
  }

  function TakeRole(body: Body, key: string): Option<Option<Option<Role>>> {
    if key !in body then Some(None)
    else if AsRole(body[key]).Some? then Some(AsRole(body[key])) else None
  }

  /** The role a user gets when the create body names none. */
  const DefaultRole: Role := Regular

  /** A user row. `role` has a default but no `allowNull: false`, so it is
      nullable. No handler writes `establishmentCoordinates`. */
  datatype User = User(
    username: string,
    email: string,
    password: string,
    role: Option<Role>,
    establishmentLocation: Option<string>,
    establishmentCoordinates: Option<seq<real>>,
    deleted: bool)

  /** The columns a request body can write. */
  datatype Column = Username | Email | Password | RoleColumn | EstablishmentLocation | Deleted
  {
    function Key(): string {
      match this
      case Username => "username"
      case Email => "email"
      case Password => "password"
      case RoleColumn => "role"
      case EstablishmentLocation => "establishmentLocation"
      case Deleted => "deleted"
    }

    predicate Required() {
      this in {Username, Email, Password}
    }
  }

  function Attr(u: User, c: Column): Json {
    match c
    case Username => Str(u.username)
    case Email => Str(u.email)
    case Password => Str(u.password)
    case RoleColumn => RoleOrNull(u.role)
    case EstablishmentLocation => TextOrNull(u.establishmentLocation)
    case Deleted => Bool(u.deleted)
  }

  function Default(c: Column): Json {
    match c
    case RoleColumn => Str(RoleText(DefaultRole))
    case Deleted => Bool(false)
    case _ => Null
  }

  /** Whether column `c` takes the JSON value `j`: username is `CHAR(20)`,
      email `CHAR(100)`, password `CHAR(255)` and establishmentLocation
      `STRING(255)`. */
  predicate Accepts(c: Column, j: Json) {
    match c
    case Username => Fits(j, 20)
    case Email => Fits(j, 100)
    case Password => Fits(j, 255)
    case RoleColumn => AsRole(j).Some?
    case EstablishmentLocation => j == Null || Fits(j, 255)
    case Deleted => j.Bool?
  }

  datatype Patch = Patch(
    username: Option<string>,
    email: Option<string>,
    password: Option<string>,
    role: Option<Option<Role>>,
    establishmentLocation: Option<Option<string>>,
    deleted: Option<bool>)

  function DecodePatch(body: Body): Option<Patch> {
    var username := TakeCapped(body, "username", 20);
    var email := TakeCapped(body, "email", 100);
    var password := TakeCapped(body, "password", 255);
    var role := TakeRole(body, "role");
    var establishmentLocation := TakeNullableCapped(body, "establishmentLocation", 255);
    var deleted := TakeBool(body, "deleted");
    if username.Some? && email.Some? && password.Some? && role.Some? && establishmentLocation.Some?
       && deleted.Some?
    then Some(Patch(username.value, email.value, password.value, role.value,
                    establishmentLocation.value, deleted.value))
    else None
  }

  function ApplyPatch(u: User, d: Patch): User {
    User(GetOr(d.username, u.username), GetOr(d.email, u.email), GetOr(d.password, u.password),
         GetOr(d.role, u.role), GetOr(d.establishmentLocation, u.establishmentLocation),
         u.establishmentCoordinates, GetOr(d.deleted, u.deleted))
  }

  function NewUser(d: Patch): Option<User> {
    if d.username.None? || d.email.None? || d.password.None? then None
    else Some(User(d.username.value, d.email.value, d.password.value, GetOr(d.role, Some(DefaultRole)),
                   GetOr(d.establishmentLocation, None), None, GetOr(d.deleted, false)))
  }

  /** An update shows every column the body names with the value given, every
      other column as it was, and never changes the coordinates. */
  lemma PatchNames(body: Body, d: Patch, u: User)
    requires DecodePatch(body) == Some(d)
    ensures forall c: Column :: Attr(ApplyPatch(u, d), c) == if c.Key() in body then body[c.Key()] else Attr(u, c)
    ensures ApplyPatch(u, d).establishmentCoordinates == u.establishmentCoordinates
  {
    forall c: Column
      ensures Attr(ApplyPatch(u, d), c) == if c.Key() in body then body[c.Key()] else Attr(u, c)
    {
      match c
      case Username => { }
      case Email => { }
      case Password => { }
      case RoleColumn => { }
      case EstablishmentLocation => { }
      case Deleted => { }
    }
  }

  lemma PatchFails(body: Body)
    ensures DecodePatch(body).None? <==> exists c: Column :: c.Key() in body && !Accepts(c, body[c.Key()])
  {
    if DecodePatch(body).None? {
      if TakeCapped(body, "username", 20).None? {
        assert Username.Key() in body && !Accepts(Username, body[Username.Key()]);
      } else if TakeCapped(body, "email", 100).None? {
        assert Email.Key() in body && !Accepts(Email, body[Email.Key()]);
      } else if TakeCapped(body, "password", 255).None? {
        assert Password.Key() in body && !Accepts(Password, body[Password.Key()]);
      } else if TakeRole(body, "role").None? {
        assert RoleColumn.Key() in body && !Accepts(RoleColumn, body[RoleColumn.Key()]);
      } else if TakeNullableCapped(body, "establishmentLocation", 255).None? {
        assert EstablishmentLocation.Key() in body && !Accepts(EstablishmentLocation, body[EstablishmentLocation.Key()]);
      } else if TakeBool(body, "deleted").None? {
        assert Deleted.Key() in body && !Accepts(Deleted, body[Deleted.Key()]);
      }
    } else {
      forall c: Column | c.Key() in body
        ensures Accepts(c, body[c.Key()])
      {
        match c
        case Username => { }
        case Email => { }
        case Password => { }
        case RoleColumn => { }
        case EstablishmentLocation => { }
        case Deleted => { }
      }
    }
  }

  /** A created user shows every column the body names with the value given,
      every other column with its default, and no coordinates. */
  lemma NewUserAttrs(body: Body, d: Patch, u: User)
    requires DecodePatch(body) == Some(d) && NewUser(d) == Some(u)
    ensures forall c: Column :: Attr(u, c) == if c.Key() in body then body[c.Key()] else Default(c)
    ensures u.establishmentCoordinates.None?
  {
    forall c: Column
      ensures Attr(u, c) == if c.Key() in body then body[c.Key()] else Default(c)
    {
      match c
      case Username => { }
      case Email => { }
      case Password => { }
      case RoleColumn => { }
      case EstablishmentLocation => { }
      case Deleted => { }
    }
  }

  lemma NewUserRequires(body: Body, d: Patch)
    requires DecodePatch(body) == Some(d)
    ensures NewUser(d).Some? <==> forall c: Column | c.Required() :: c.Key() in body
  {
    if NewUser(d).Some? {
      forall c: Column | c.Required()
        ensures c.Key() in body
      {
        match c
        case Username => { }
        case Email => { }
        case Password => { }
        case RoleColumn => { }
        case EstablishmentLocation => { }
        case Deleted => { }
      }
    } else {
      assert Username.Required() && Email.Required() && Password.Required();
    }
  }

  /** A body makes a new row exactly when it names username, email and password
      and every column it names takes its value, length caps included. */
  lemma NewUserExactly(body: Body)
    ensures (DecodePatch(body).Some? && NewUser(DecodePatch(body).value).Some?) <==>
      && (forall c: Column | c.Required() :: c.Key() in body)
      && (forall c: Column | c.Key() in body :: Accepts(c, body[c.Key()]))
  {
    PatchFails(body);
    if DecodePatch(body).Some? {
      NewUserRequires(body, DecodePatch(body).value);
    }
  }

  /** `CHAR(20)`, `CHAR(100)`, `CHAR(255)` and `STRING(255)`. */
  predicate WithinCaps(u: User) {
    && |u.username| <= 20
    && |u.email| <= 100
    && |u.password| <= 255
    && (u.establishmentLocation.Some? ==> |u.establishmentLocation.value| <= 255)
  }

  /** Every row the table stores fits its caps: a created row, and an updated
      row that fitted before. */
  lemma CapsKept(body: Body, d: Patch, u: User)
    requires DecodePatch(body) == Some(d)
    ensures WithinCaps(u) ==> WithinCaps(ApplyPatch(u, d))
    ensures NewUser(d).Some? ==> WithinCaps(NewUser(d).value)
  {
  }

  function CoordinatesJson(c: Option<seq<real>>): Json {
    if c.None? then Null else Arr(seq(|c.value|, i requires 0 <= i < |c.value| => Num(c.value[i])))
  }

  /** The JSON of a user row with its id; `withPassword` false is the row as
      fetched with `attributes: { exclude: "password" }`. Every other column is
      shown as stored. */
  function UserJson(id: int, u: User, withPassword: bool): (r: map<string, Json>)
    ensures "password" in r <==> withPassword
    ensures withPassword ==> r["password"] == Str(u.password)
    ensures "id" in r && r["id"] == Num(id as real)
    ensures forall c: Column | c != Password :: c.Key() in r && r[c.Key()] == Attr(u, c)
  {
    var shown := map["id" := Num(id as real), "username" := Str(u.username), "email" := Str(u.email),
                     "role" := RoleOrNull(u.role),
                     "establishmentLocation" := TextOrNull(u.establishmentLocation),
                     "establishmentCoordinates" := CoordinatesJson(u.establishmentCoordinates),
                     "deleted" := Bool(u.deleted)];
    if withPassword then shown["password" := Str(u.password)] else shown
  }
}
