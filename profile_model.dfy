/** The profile table of profile.model.js: the record, the JSON view of each
    column, and how a request body becomes a new or updated row.

    profile.model.js declares first_name and last_name (`CHAR(50)` each) and the
    `deleted` flag; `user_id` is the nullable foreign key that
    `belongsTo(UserModel)` adds. Any other key of a body, such as the
    `biography`, `avatar_url` and `birth_date` the handlers pass along, is not an
    attribute of the model, so `create` and `update` drop it. */
module ProfileModel {
  import opened Wrappers
  import opened Json
  import opened Columns

  datatype Profile = Profile(
    firstName: string,
    lastName: string,
    userId: Option<int>,
    deleted: bool)

  datatype Column = FirstName | LastName | UserId | Deleted
  {
    function Key(): string {
      match this
      case FirstName => "first_name"
      case LastName => "last_name"
      case UserId => "user_id"
      case Deleted => "deleted"
    }

    predicate Required() {
      this in {FirstName, LastName}
    }
  }

  /** A key names an attribute of the model. */
  predicate Declared(key: string) {
    exists c: Column :: c.Key() == key
  }

  function Attr(p: Profile, c: Column): Json {
    match c
    case FirstName => Str(p.firstName)
    case LastName => Str(p.lastName)
    case UserId => IntOrNull(p.userId)
    case Deleted => Bool(p.deleted)
  }

  function Default(c: Column): Json {
    if c == Deleted then Bool(false) else Null
  }

  /** Whether column `c` takes the JSON value `j`; both names are `CHAR(50)`. */
  predicate Accepts(c: Column, j: Json) {
    match c
    case FirstName | LastName => Fits(j, 50)
    case UserId => NullableInt(j).Some?
    case Deleted => j.Bool?
  }

  datatype Patch = Patch(
    firstName: Option<string>,
    lastName: Option<string>,
    userId: Option<Option<int>>,
    deleted: Option<bool>)

  /** The named columns of a body; None when a column rejects its value. Keys
      that are not columns are ignored. */
  function DecodePatch(body: Body): Option<Patch> {
    var firstName := TakeCapped(body, "first_name", 50);
    var lastName := TakeCapped(body, "last_name", 50);
    var userId := TakeNullableInt(body, "user_id");
    var deleted := TakeBool(body, "deleted");
    if firstName.Some? && lastName.Some? && userId.Some? && deleted.Some?
    then Some(Patch(firstName.value, lastName.value, userId.value, deleted.value))
    else None
  }

  function ApplyPatch(p: Profile, d: Patch): Profile {
    Profile(GetOr(d.firstName, p.firstName), GetOr(d.lastName, p.lastName),
            GetOr(d.userId, p.userId), GetOr(d.deleted, p.deleted))
  }

  function NewProfile(d: Patch): Option<Profile> {
    if d.firstName.None? || d.lastName.None? then None
    else Some(Profile(d.firstName.value, d.lastName.value, GetOr(d.userId, None), GetOr(d.deleted, false)))
  }

  /** A key the model does not declare changes nothing, whatever its value. */
  lemma UndeclaredIgnored(body: Body, key: string, v: Json)
    requires !Declared(key)
    ensures DecodePatch(body[key := v]) == DecodePatch(body)
  {
    assert FirstName.Key() != key && LastName.Key() != key && UserId.Key() != key && Deleted.Key() != key;
  }

  /** An update shows every column the body names with the value given, and
      every other column as it was. */
  lemma PatchNames(body: Body, d: Patch, p: Profile)
    requires DecodePatch(body) == Some(d)
    ensures forall c: Column :: Attr(ApplyPatch(p, d), c) == if c.Key() in body then body[c.Key()] else Attr(p, c)
  {
    forall c: Column
      ensures Attr(ApplyPatch(p, d), c) == if c.Key() in body then body[c.Key()] else Attr(p, c)
    {
      match c
      case FirstName => { }
      case LastName => { }
      case UserId => { }
      case Deleted => { }
    }
  }

  /** A body is rejected exactly when some column it names rejects its value. */
  lemma PatchFails(body: Body)
    ensures DecodePatch(body).None? <==> exists c: Column :: c.Key() in body && !Accepts(c, body[c.Key()])
  {
    if DecodePatch(body).None? {
      if TakeCapped(body, "first_name", 50).None? {
        assert FirstName.Key() in body && !Accepts(FirstName, body[FirstName.Key()]);
      } else if TakeCapped(body, "last_name", 50).None? {
        assert LastName.Key() in body && !Accepts(LastName, body[LastName.Key()]);
      } else if TakeNullableInt(body, "user_id").None? {
        assert UserId.Key() in body && !Accepts(UserId, body[UserId.Key()]);
      } else if TakeBool(body, "deleted").None? {
        assert Deleted.Key() in body && !Accepts(Deleted, body[Deleted.Key()]);
      }
    } else {
      forall c: Column | c.Key() in body
        ensures Accepts(c, body[c.Key()])
      {
        match c
        case FirstName => { }
        case LastName => { }
        case UserId => { }
        case Deleted => { }
      }
    }
  }

  /** A created profile shows every column the body names with the value given,
      and every other column with its default. */
  lemma NewProfileAttrs(body: Body, d: Patch, p: Profile)
    requires DecodePatch(body) == Some(d) && NewProfile(d) == Some(p)
    ensures forall c: Column :: Attr(p, c) == if c.Key() in body then body[c.Key()] else Default(c)
  {
    forall c: Column
      ensures Attr(p, c) == if c.Key() in body then body[c.Key()] else Default(c)
    {
      match c
      case FirstName => { }
      case LastName => { }
      case UserId => { }
      case Deleted => { }
    }
  }

  /** Of a decoded body, creation succeeds exactly when both names are given. */
  lemma NewProfileRequires(body: Body, d: Patch)
    requires DecodePatch(body) == Some(d)
    ensures NewProfile(d).Some? <==> forall c: Column | c.Required() :: c.Key() in body
  {
    if NewProfile(d).Some? {
      forall c: Column | c.Required()
        ensures c.Key() in body
      {
        match c
        case FirstName => { }
        case LastName => { }
        case UserId => { }
        case Deleted => { }
      }
    } else {
      assert FirstName.Required() && LastName.Required();
    }
  }

  /** A body makes a new row exactly when it names both names and every column
      it names takes its value, the 50-character caps included. */
  lemma NewProfileExactly(body: Body)
    ensures (DecodePatch(body).Some? && NewProfile(DecodePatch(body).value).Some?) <==>
      && (forall c: Column | c.Required() :: c.Key() in body)
      && (forall c: Column | c.Key() in body :: Accepts(c, body[c.Key()]))
  {
    PatchFails(body);
    if DecodePatch(body).Some? {
      NewProfileRequires(body, DecodePatch(body).value);
    }
  }

  /** `CHAR(50)` for both names, and the 32-bit range of `user_id`. */
  predicate WithinCaps(p: Profile) {
    && |p.firstName| <= 50 && |p.lastName| <= 50
    && (p.userId.Some? ==> InIntRange(p.userId.value))
  }

  /** Every row the table stores fits its caps: a created row, and an updated
      row that fitted before. */
  lemma CapsKept(body: Body, d: Patch, p: Profile)
    requires DecodePatch(body) == Some(d)
    ensures WithinCaps(p) ==> WithinCaps(ApplyPatch(p, d))
    ensures NewProfile(d).Some? ==> WithinCaps(NewProfile(d).value)
  {
  }
}
