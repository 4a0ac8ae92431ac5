/** The profile handlers of profile.controller.js over the store. None of them
    filters on `deleted`; rows removed by `destroy()` are gone from the table. */
module ProfileController {
  import opened Wrappers
  import opened Json
  import opened Store
  import U = UserModel
  import Pr = ProfileModel
  import Columns

  /** A profile as the list and get return it: the row and the `user` include,
      which is the whole user row, password included. */
  datatype ProfileView = ProfileView(id: int, profile: Pr.Profile, user: Option<U.User>)

  datatype ProfileRow = ProfileRow(id: int, profile: Pr.Profile)

  function UserOf(users: map<int, U.User>, p: Pr.Profile): Option<U.User> {
    if p.userId.Some? && p.userId.value in users then Some(users[p.userId.value]) else None
  }

  /** The keys `createProfile` takes from the body. Of these, biography,
      avatar_url and birth_date are not attributes of the model, so the insert
      drops them. */
  const CreateKeys: set<string> := {"first_name", "last_name", "biography", "avatar_url", "birth_date", "user_id"}

  /** The row `createProfile` inserts; None when the database refuses it. */
  function BuildProfile(users: map<int, U.User>, body: Body): Option<Pr.Profile> {
    var d :- Pr.DecodePatch(Pick(body, CreateKeys));
    var p :- Pr.NewProfile(d);
    if p.userId.None? || p.userId.value in users then Some(p) else None
  }

  /** The two declared columns `updateProfile` merges. */
  predicate Merged(c: Pr.Column) {
    c in {Pr.FirstName, Pr.LastName}
  }

  /** `value || profile.key` for a key the model does not declare: the instance
      has no such attribute, so the merge gives the body's value when it is
      truthy and `undefined` otherwise. */
  function MergeUndeclared(merged: Body, body: Body, key: string): Body {
    var v := Field(body, key);
    if v.Some? && Truthy(v.value) then merged[key := v.value] else merged
  }

  /** What `updateProfile` passes to `update`. */
  function MergedBody(p: Pr.Profile, body: Body): Body {
    var declared := map["first_name" := OrElse(Field(body, "first_name"), Pr.Attr(p, Pr.FirstName)),
                        "last_name" := OrElse(Field(body, "last_name"), Pr.Attr(p, Pr.LastName))];
    MergeUndeclared(MergeUndeclared(MergeUndeclared(declared, body, "biography"), body, "avatar_url"), body, "birth_date")
  }

  function MergeProfile(p: Pr.Profile, body: Body): Option<Pr.Profile> {
    var d :- Pr.DecodePatch(MergedBody(p, body));
    Some(Pr.ApplyPatch(p, d))
  }

  /** The keys of the merge that are not attributes of the model. */
  lemma UndeclaredKeys()
    ensures !Pr.Declared("biography") && !Pr.Declared("avatar_url") && !Pr.Declared("birth_date")
  {
    forall c: Pr.Column
      ensures c.Key() != "biography" && c.Key() != "avatar_url" && c.Key() != "birth_date"
    {
      match c
      case FirstName => { }
      case LastName => { }
      case UserId => { }
      case Deleted => { }
    }
  }

  /** The update decodes as the merge of the two names alone: biography,
      avatar_url and birth_date never reach the row. */
  lemma MergedDecodes(p: Pr.Profile, body: Body)
    ensures Pr.DecodePatch(MergedBody(p, body)) ==
      Pr.DecodePatch(map["first_name" := OrElse(Field(body, "first_name"), Pr.Attr(p, Pr.FirstName)),
                         "last_name" := OrElse(Field(body, "last_name"), Pr.Attr(p, Pr.LastName))])
  {
    UndeclaredKeys();
    var declared := map["first_name" := OrElse(Field(body, "first_name"), Pr.Attr(p, Pr.FirstName)),
                        "last_name" := OrElse(Field(body, "last_name"), Pr.Attr(p, Pr.LastName))];
    var m1 := MergeUndeclared(declared, body, "biography");
    var m2 := MergeUndeclared(m1, body, "avatar_url");
    if Field(body, "biography").Some? && Truthy(Field(body, "biography").value) {
      Pr.UndeclaredIgnored(declared, "biography", body["biography"]);
    }
    if Field(body, "avatar_url").Some? && Truthy(Field(body, "avatar_url").value) {
      Pr.UndeclaredIgnored(m1, "avatar_url", body["avatar_url"]);
    }
    if Field(body, "birth_date").Some? && Truthy(Field(body, "birth_date").value) {
      Pr.UndeclaredIgnored(m2, "birth_date", body["birth_date"]);
    }
  }

  /** A created profile carries the supplied `user_id` and names as given and
      the defaults elsewhere, and the named user exists; the undeclared keys
      leave no trace. Creation is refused exactly when a picked column rejects
      its value (a name over 50 characters, say), a name is missing, or
      `user_id` names no user. */
  lemma BuildProfileMeaning(users: map<int, U.User>, body: Body)
    ensures BuildProfile(users, body).None? <==>
      || (exists c: Pr.Column :: c.Key() in body && c.Key() in CreateKeys && !Pr.Accepts(c, body[c.Key()]))
      || "first_name" !in body || "last_name" !in body
      || ("user_id" in body && Columns.AsInt(body["user_id"]).Some? && Columns.AsInt(body["user_id"]).value !in users)
    ensures BuildProfile(users, body).Some? ==>
      var p := BuildProfile(users, body).value;
      && (forall c: Pr.Column :: Pr.Attr(p, c) == if c.Key() in body && c.Key() in CreateKeys then body[c.Key()] else Pr.Default(c))
      && (p.userId.Some? ==> p.userId.value in users)
      && !p.deleted
  {
    var picked := Pick(body, CreateKeys);
    Pr.PatchFails(picked);
    assert forall c: Pr.Column :: c.Key() in picked <==> c.Key() in body && c.Key() in CreateKeys;
    if d :| Pr.DecodePatch(picked) == Some(d) {
      Pr.NewProfileRequires(picked, d);
      assert Pr.Column.FirstName.Required() && Pr.Column.LastName.Required();
      if p :| Pr.NewProfile(d) == Some(p) {
        Pr.NewProfileAttrs(picked, d, p);
        assert Pr.Attr(p, Pr.Deleted) == Pr.Default(Pr.Deleted);
        assert Pr.Attr(p, Pr.UserId) == if "user_id" in body then body["user_id"] else Null;
        if "user_id" in body && Columns.AsInt(body["user_id"]).Some? {
          assert Pr.Accepts(Pr.UserId, body["user_id"]);
          assert p.userId == Columns.AsInt(body["user_id"]);
        } else if "user_id" in body {
          assert Pr.Accepts(Pr.UserId, body["user_id"]);
          assert p.userId.None?;
        }
      }
    }
  }

  /** `updateProfile` replaces each of the two names exactly when the body's
      value is truthy, and keeps user_id and deleted; biography, avatar_url and
      birth_date are dropped. The update is refused exactly when a merged name
      is too long for its `CHAR(50)` column or not a string. */
  lemma MergeProfileMeaning(p: Pr.Profile, body: Body)
    ensures MergeProfile(p, body).None? <==>
      exists c: Pr.Column | Merged(c) :: !Pr.Accepts(c, OrElse(Field(body, c.Key()), Pr.Attr(p, c)))
    ensures MergeProfile(p, body).Some? ==>
      var q := MergeProfile(p, body).value;
      && (forall c: Pr.Column | Merged(c) :: Pr.Attr(q, c) == OrElse(Field(body, c.Key()), Pr.Attr(p, c)))
      && q.userId == p.userId && q.deleted == p.deleted
  {
    var declared := map["first_name" := OrElse(Field(body, "first_name"), Pr.Attr(p, Pr.FirstName)),
                        "last_name" := OrElse(Field(body, "last_name"), Pr.Attr(p, Pr.LastName))];
    MergedDecodes(p, body);
    Pr.PatchFails(declared);
    assert forall c: Pr.Column :: c.Key() in declared <==> Merged(c);
    if d :| Pr.DecodePatch(declared) == Some(d) {
      Pr.PatchNames(declared, d, p);
      var q := Pr.ApplyPatch(p, d);
      forall c: Pr.Column | Merged(c)
        ensures Pr.Attr(q, c) == OrElse(Field(body, c.Key()), Pr.Attr(p, c))
      {
        assert c.Key() in declared;
      }
      assert "user_id" !in declared && "deleted" !in declared;
    }
  }

  /** `getAllProfiles`: every profile, soft-deleted ones included. */
  method GetAllProfiles(db: Database) returns (r: Reply<map<int, ProfileView>>)
    ensures r.status == 200 && r.body.Data?
    ensures r.body.value.Keys == db.profiles.Keys
    ensures forall id | id in r.body.value ::
      id in db.profiles && r.body.value[id] == ProfileView(id, db.profiles[id], UserOf(db.users, db.profiles[id]))
  {
    var views := map id | id in db.profiles :: ProfileView(id, db.profiles[id], UserOf(db.users, db.profiles[id]));
    r := Reply(200, Data(views));
  }

  /** `getProfileById`: by id alone, 200 even when there is none. */
  method GetProfileById(db: Database, idText: string) returns (r: Reply<Option<ProfileView>>)
    ensures PathId(idText).None? ==> r == Reply(500, Message("No se pudo obtener el perfil"))
    ensures PathId(idText).Some? ==>
      var id := PathId(idText).value;
      r == Reply(200, Data(if id in db.profiles then Some(ProfileView(id, db.profiles[id], UserOf(db.users, db.profiles[id]))) else None))
  {
    var id := PathId(idText);
    if id.None? {
      return Reply(500, Message("No se pudo obtener el perfil"));
    }
    if id.value in db.profiles {
      var p := db.profiles[id.value];
      r := Reply(200, Data(Some(ProfileView(id.value, p, UserOf(db.users, p)))));
    } else {
      r := Reply(200, Data(None));
    }
  }

  /** `createProfile`: one new profile with the supplied `user_id`, or 500 and no change. */
  method CreateProfile(db: Database, body: Body) returns (r: Reply<ProfileRow>)
    requires db.Valid()
    modifies db
    ensures db.Valid()
    ensures db.plots == old(db.plots) && db.users == old(db.users)
    ensures db.nextPlotId == old(db.nextPlotId) && db.nextUserId == old(db.nextUserId)
    ensures BuildProfile(old(db.users), body).None? ==>
      r == Reply(500, Message("No se pudo crear el perfil")) && db.profiles == old(db.profiles) && db.nextProfileId == old(db.nextProfileId)
    ensures BuildProfile(old(db.users), body).Some? ==>
      var p := BuildProfile(old(db.users), body).value;
      && old(db.nextProfileId) !in old(db.profiles)
      && db.profiles == old(db.profiles)[old(db.nextProfileId) := p]
      && db.nextProfileId == old(db.nextProfileId) + 1
      && r == Reply(201, Data(ProfileRow(old(db.nextProfileId), p)))
  {
    var p := BuildProfile(db.users, body);
    if p.None? {
      return Reply(500, Message("No se pudo crear el perfil"));
    }
    var id := db.nextProfileId;
    db.profiles := db.profiles[id := p.value];
    db.nextProfileId := id + 1;
    r := Reply(201, Data(ProfileRow(id, p.value)));
  }

  /** `updateProfile`: 500 on a missing id (the null profile is dereferenced);
      otherwise the `||` merge of the five columns. */
  method UpdateProfile(db: Database, idText: string, body: Body) returns (r: Reply<ProfileRow>)
    requires db.Valid()
    modifies db
    ensures db.Valid()
    ensures db.plots == old(db.plots) && db.users == old(db.users)
    ensures db.nextPlotId == old(db.nextPlotId) && db.nextUserId == old(db.nextUserId) && db.nextProfileId == old(db.nextProfileId)
    ensures PathId(idText).None? || PathId(idText).value !in old(db.profiles) ==>
      r == Reply(500, Message("No se pudo actualizar el perfil")) && db.profiles == old(db.profiles)
    ensures PathId(idText).Some? && PathId(idText).value in old(db.profiles) ==>
      var id := PathId(idText).value;
      var q := MergeProfile(old(db.profiles)[id], body);
      && (q.None? ==> r == Reply(500, Message("No se pudo actualizar el perfil")) && db.profiles == old(db.profiles))
      && (q.Some? ==> r == Reply(200, Data(ProfileRow(id, q.value))) && db.profiles == old(db.profiles)[id := q.value])
  {
    var id := PathId(idText);
    if id.None? || id.value !in db.profiles {
      return Reply(500, Message("No se pudo actualizar el perfil"));
    }
    var q := MergeProfile(db.profiles[id.value], body);
    if q.None? {
      return Reply(500, Message("No se pudo actualizar el perfil"));
    }
    MergeProfileMeaning(db.profiles[id.value], body);
    assert ProfileUsersExist(db.profiles[id.value := q.value], db.users);
    db.profiles := db.profiles[id.value := q.value];
    r := Reply(200, Data(ProfileRow(id.value, q.value)));
  }

  /** `deleteProfile`: 500 on a missing id; otherwise the profile is destroyed. */
  method DeleteProfile(db: Database, idText: string) returns (r: Reply<ProfileRow>)
    requires db.Valid()
    modifies db
    ensures db.Valid()
    ensures db.plots == old(db.plots) && db.users == old(db.users)
    ensures db.nextPlotId == old(db.nextPlotId) && db.nextUserId == old(db.nextUserId) && db.nextProfileId == old(db.nextProfileId)
    ensures PathId(idText).None? || PathId(idText).value !in old(db.profiles) ==>
      r == Reply(500, Message("No se pudo eliminar el perfil")) && db.profiles == old(db.profiles)
    ensures PathId(idText).Some? && PathId(idText).value in old(db.profiles) ==>
      r == Reply(200, Message("El perfil se eliminó exitosamente"))
      && db.profiles == old(db.profiles) - {PathId(idText).value}
  {
    var id := PathId(idText);
    if id.None? || id.value !in db.profiles {
      return Reply(500, Message("No se pudo eliminar el perfil"));
    }
    db.profiles := db.profiles - {id.value};
    r := Reply(200, Message("El perfil se eliminó exitosamente"));
  }
}
