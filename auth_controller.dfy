/** The handlers of auth.controller.js. Hashing, password comparison and token
    signing live in helpers that are not part of this model and are parameters;
    `NODE_ENV` is a parameter too. */
module AuthController {
  import opened Wrappers
  import opened Json
  import opened Store
  import U = UserModel
  import Pr = ProfileModel

  // ---------------------------------------------------------------------------
  // register

  datatype RegisterResult =
    | Refused(status: int, message: string)
    /** The user row was inserted and the profile insert then failed: the
        handler answers 500 and the user stays. */
    | UserOnly(user: U.User)
    | Registered(user: U.User, profile: Pr.Profile)

  const UserKeys: set<string> := {"username", "email", "role", "establishmentLocation"}
  const ProfileKeys: set<string> := {"first_name", "last_name"}

  const CouldNotCreate: string := "No se pudo crear el usuario"
  const UsernameTaken: string := "Ya existe un usuario con este nombre de usuario"
  const EmailTaken: string := "Ya existe un usuario con este email"

  /** The body of the user insert: the picked columns and the hashed password
      (`establishmentLat` and `establishmentLng` are not columns and are dropped). */
  function UserBody(body: Body, hashed: string): Body {
    Pick(body, UserKeys)["password" := Str(hashed)]
  }

  function ProfileBody(body: Body, userId: int): Body {
    Pick(body, ProfileKeys)["user_id" := Num(userId as real)]
  }

  /** What `register` does, in order: hash the password (a non-string throws),
      refuse a taken username, then a taken email, then insert the user and
      then its profile. */
  function RegisterPlan(users: map<int, U.User>, userId: int, body: Body, hash: string -> string): RegisterResult {
    var password := Field(body, "password");
    if !(password.Some? && password.value.Str?) then Refused(500, CouldNotCreate)
    else
      var byName := Find(users, U.Username, Field(body, "username"));
      if byName == SearchThrows then Refused(500, CouldNotCreate)
      else if byName.Hit? then Refused(400, UsernameTaken)
      else
        var byEmail := Find(users, U.Email, Field(body, "email"));
        if byEmail == SearchThrows then Refused(500, CouldNotCreate)
        else if byEmail.Hit? then Refused(400, EmailTaken)
        else
          var ud := U.DecodePatch(UserBody(body, hash(password.value.s)));
          var u := if ud.Some? then U.NewUser(ud.value) else None;
          if u.None? || !UserFits(users, userId, u.value) then Refused(500, CouldNotCreate)
          else
            var pd := Pr.DecodePatch(ProfileBody(body, userId));
            var p := if pd.Some? then Pr.NewProfile(pd.value) else None;
            if p.None? then UserOnly(u.value) else Registered(u.value, p.value)
  }

  /** A taken username is refused with 400 before the email is looked at, even
      when the user holding it is soft-deleted. */
  lemma DuplicateUsernameRefused(users: map<int, U.User>, userId: int, body: Body, hash: string -> string, id: int)
    requires "password" in body && body["password"].Str?
    requires id in users && "username" in body && body["username"] == Str(users[id].username)
    ensures RegisterPlan(users, userId, body, hash) == Refused(400, UsernameTaken)
  {
    assert U.Attr(users[id], U.Username) == body["username"];
  }

  /** A free username and a taken email are refused with 400. */
  lemma DuplicateEmailRefused(users: map<int, U.User>, userId: int, body: Body, hash: string -> string, id: int)
    requires "password" in body && body["password"].Str?
    requires Find(users, U.Username, Field(body, "username")) == Miss
    requires id in users && "email" in body && body["email"] == Str(users[id].email)
    ensures RegisterPlan(users, userId, body, hash) == Refused(400, EmailTaken)
  {
    assert U.Attr(users[id], U.Email) == body["email"];
  }

  /** The user inserted by `register` carries the hashed password, the given
      username and email, and the default role when none is given. */
  lemma RegisteredUser(body: Body, hashed: string, u: U.User)
    requires var ud := U.DecodePatch(UserBody(body, hashed)); ud.Some? && U.NewUser(ud.value) == Some(u)
    ensures u.password == hashed && !u.deleted
    ensures "username" in body && Str(u.username) == body["username"]
    ensures "email" in body && Str(u.email) == body["email"]
    ensures "role" !in body ==> u.role == Some(U.DefaultRole)
  {
    var ub := UserBody(body, hashed);
    var ud := U.DecodePatch(ub).value;
    U.NewUserAttrs(ub, ud, u);
    U.NewUserRequires(ub, ud);
    assert U.Column.Username.Required() && U.Column.Email.Required();
    assert U.Attr(u, U.Password) == Str(hashed);
    assert U.Attr(u, U.Username) == ub["username"];
    assert U.Attr(u, U.Email) == ub["email"];
    assert U.Attr(u, U.RoleColumn) == if "role" in ub then ub["role"] else U.Default(U.RoleColumn);
    assert U.Attr(u, U.Deleted) == U.Default(U.Deleted);
  }

  /** The profile inserted by `register` belongs to the new user and carries the
      given names. */
  lemma RegisteredProfile(body: Body, userId: int, p: Pr.Profile)
    requires var pd := Pr.DecodePatch(ProfileBody(body, userId)); pd.Some? && Pr.NewProfile(pd.value) == Some(p)
    ensures p.userId == Some(userId) && !p.deleted
    ensures "first_name" in body && Str(p.firstName) == body["first_name"]
    ensures "last_name" in body && Str(p.lastName) == body["last_name"]
  {
    var pb := ProfileBody(body, userId);
    var pd := Pr.DecodePatch(pb).value;
    Pr.NewProfileAttrs(pb, pd, p);
    Pr.NewProfileRequires(pb, pd);
    assert Pr.Column.FirstName.Required() && Pr.Column.LastName.Required();
    assert Pr.Attr(p, Pr.UserId) == Num(userId as real);
    assert (userId as real).Floor == userId;
    assert Pr.Attr(p, Pr.FirstName) == pb["first_name"];
    assert Pr.Attr(p, Pr.LastName) == pb["last_name"];
    assert Pr.Attr(p, Pr.Deleted) == Pr.Default(Pr.Deleted);
  }

  /** A completed registration: the user with the hashed password and the given
      names, fitting the store's uniqueness rules, and its profile. */
  lemma RegisteredMeaning(users: map<int, U.User>, userId: int, body: Body, hash: string -> string)
    requires RegisterPlan(users, userId, body, hash).Registered?
    ensures "password" in body && body["password"].Str?
    ensures var res := RegisterPlan(users, userId, body, hash);
      && res.user.password == hash(body["password"].s) && !res.user.deleted
      && "username" in body && Str(res.user.username) == body["username"]
      && "email" in body && Str(res.user.email) == body["email"]
      && ("role" !in body ==> res.user.role == Some(U.DefaultRole))
      && res.profile.userId == Some(userId)
      && "first_name" in body && Str(res.profile.firstName) == body["first_name"]
      && "last_name" in body && Str(res.profile.lastName) == body["last_name"]
      && UserFits(users, userId, res.user)
  {
    var res := RegisterPlan(users, userId, body, hash);
    RegisteredUser(body, hash(body["password"].s), res.user);
    RegisteredProfile(body, userId, res.profile);
  }

  /** The rows `register` inserts fit their column caps. */
  lemma PlanWithinCaps(users: map<int, U.User>, userId: int, body: Body, hash: string -> string)
    ensures var res := RegisterPlan(users, userId, body, hash);
      (res.UserOnly? || res.Registered?) ==> U.WithinCaps(res.user)
    ensures var res := RegisterPlan(users, userId, body, hash);
      res.Registered? ==> Pr.WithinCaps(res.profile)
  {
    var res := RegisterPlan(users, userId, body, hash);
    if !res.Refused? {
      var ub := UserBody(body, hash(body["password"].s));
      U.CapsKept(ub, U.DecodePatch(ub).value, res.user);
      var pb := ProfileBody(body, userId);
      if res.Registered? {
        Pr.CapsKept(pb, Pr.DecodePatch(pb).value, res.profile);
      }
    }
  }

  /** `register`: the plan applied to the store. The two inserts are separate,
      so a failed profile insert leaves the new user in place. */
  method Register(db: Database, body: Body, hash: string -> string) returns (r: Reply<bool>)
    requires db.Valid()
    modifies db
    ensures db.Valid()
    ensures db.plots == old(db.plots) && db.nextPlotId == old(db.nextPlotId)
    ensures var res := RegisterPlan(old(db.users), old(db.nextUserId), body, hash);
      res.Refused? ==> r == Reply(res.status, Message(res.message)) && db.users == old(db.users) && db.profiles == old(db.profiles) && db.nextUserId == old(db.nextUserId) && db.nextProfileId == old(db.nextProfileId)
    ensures var res := RegisterPlan(old(db.users), old(db.nextUserId), body, hash);
      res.UserOnly? ==> r == Reply(500, Message(CouldNotCreate)) && db.users == old(db.users)[old(db.nextUserId) := res.user] && db.nextUserId == old(db.nextUserId) + 1 && db.profiles == old(db.profiles) && db.nextProfileId == old(db.nextProfileId)
    ensures var res := RegisterPlan(old(db.users), old(db.nextUserId), body, hash);
      res.Registered? ==> r == Reply(201, Message("Usuario creado existosamente")) && db.users == old(db.users)[old(db.nextUserId) := res.user] && db.nextUserId == old(db.nextUserId) + 1 && db.profiles == old(db.profiles)[old(db.nextProfileId) := res.profile] && db.nextProfileId == old(db.nextProfileId) + 1
  {
    var userId := db.nextUserId;
    var res := RegisterPlan(db.users, userId, body, hash);
    if res.Refused? {
      return Reply(res.status, Message(res.message));
    }
    PlanWithinCaps(db.users, userId, body, hash);
    InsertUserConsistent(db.users, db.profiles, db.plots, userId, db.nextProfileId, db.nextPlotId, res.user);
    db.users, db.nextUserId := db.users[userId := res.user], userId + 1;
    if res.UserOnly? {
      return Reply(500, Message(CouldNotCreate));
    }
    RegisteredMeaning(old(db.users), userId, body, hash);
    var profileId := db.nextProfileId;
    InsertProfileConsistent(db.users, db.profiles, db.plots, db.nextUserId, profileId, db.nextPlotId, res.profile);
    db.profiles, db.nextProfileId := db.profiles[profileId := res.profile], profileId + 1;
    r := Reply(201, Message("Usuario creado existosamente"));
  }

  // ---------------------------------------------------------------------------
  // cookies

  datatype CookieOptions = CookieOptions(httpOnly: bool, maxAge: Option<int>, sameSite: string, secure: bool)

  datatype CookieDirective = SetCookie(name: string, value: string, options: CookieOptions) | ClearCookie(name: string, options: CookieOptions)

  /** One hour, in milliseconds. */
  const TokenMaxAge: int := 1000 * 60 * 60

  predicate IsProduction(env: Option<string>) {
    env == Some("production")
  }

  function SameSite(env: Option<string>): string {
    if IsProduction(env) then "none" else "lax"
  }

  function LoginCookieOptions(env: Option<string>): CookieOptions {
    CookieOptions(true, Some(TokenMaxAge), SameSite(env), IsProduction(env))
  }

  function LogoutCookieOptions(env: Option<string>): CookieOptions {
    CookieOptions(false, None, SameSite(env), IsProduction(env))
  }

  /** The login cookie is HTTP-only and lasts an hour; it is cross-site and
      secure in production, and same-site "lax" and not secure elsewhere; the
      logout clears it with the same SameSite and Secure attributes. */
  lemma CookieOptionsByEnvironment(env: Option<string>)
    ensures var o := LoginCookieOptions(env);
      && o.httpOnly && o.maxAge == Some(3600000)
      && (o.secure <==> env == Some("production"))
      && (o.sameSite == "none" <==> o.secure)
      && (o.sameSite == "lax" <==> !o.secure)
    ensures LogoutCookieOptions(env).sameSite == LoginCookieOptions(env).sameSite
    ensures LogoutCookieOptions(env).secure == LoginCookieOptions(env).secure
  {
  }

  /** The browser's cookies after a directive. */
  function ApplyCookie(jar: map<string, string>, d: CookieDirective): (r: map<string, string>)
    ensures d.SetCookie? ==> d.name in r && r[d.name] == d.value
    ensures d.ClearCookie? ==> d.name !in r
    ensures forall k | k in jar && k != d.name :: k in r && r[k] == jar[k]
  {
    match d
    case SetCookie(name, value, _) => jar[name := value]
    case ClearCookie(name, _) => jar - {name}
  }

  // ---------------------------------------------------------------------------
  // login, logout, me

  datatype LoginBody = LoginBody(message: string, token: string)

  const BadCredentials: string := "Credenciales inválidas"

  /** `login`: an unknown username and a wrong password get the identical 401;
      a soft-deleted user can log in; on success the token is both set as the
      `token` cookie and returned in the body. */
  method Login(db: Database, body: Body, compare: (string, string) -> bool, sign: (int, U.User) -> string,
               env: Option<string>) returns (r: Reply<LoginBody>, cookie: Option<CookieDirective>)
    requires db.Valid()
    ensures Find(db.users, U.Username, Field(body, "username")) == SearchThrows ==> r == Reply(500, Message("No se pudo ingresar")) && cookie.None?
    ensures Find(db.users, U.Username, Field(body, "username")) == Miss ==> r == Reply(401, Message(BadCredentials)) && cookie.None?
    ensures Find(db.users, U.Username, Field(body, "username")) == Hit && !("password" in body && body["password"].Str?) ==> r == Reply(500, Message("No se pudo ingresar")) && cookie.None?
    ensures forall id | id in db.users && "username" in body && body["username"] == Str(db.users[id].username) && "password" in body && body["password"].Str? ::
      (!compare(body["password"].s, db.users[id].password) ==> r == Reply(401, Message(BadCredentials)) && cookie.None?)
      && (compare(body["password"].s, db.users[id].password) ==> r == Reply(200, Data(LoginBody("Login existoso", sign(id, db.users[id])))) && cookie == Some(SetCookie("token", sign(id, db.users[id]), LoginCookieOptions(env))))
  {
    var found := Find(db.users, U.Username, Field(body, "username"));
    if found == SearchThrows {
      return Reply(500, Message("No se pudo ingresar")), None;
    }
    if found == Miss {
      return Reply(401, Message(BadCredentials)), None;
    }
    var password := Field(body, "password");
    if !(password.Some? && password.value.Str?) {
      return Reply(500, Message("No se pudo ingresar")), None;
    }
    var id :| id in db.users && U.Attr(db.users[id], U.Username) == body["username"];
    var u := db.users[id];
    if !compare(password.value.s, u.password) {
      return Reply(401, Message(BadCredentials)), None;
    }
    var token := sign(id, u);
    cookie := Some(SetCookie("token", token, LoginCookieOptions(env)));
    r := Reply(200, Data(LoginBody("Login existoso", token)));
  }

  datatype LogoutResult = LogoutResult(reply: Reply<LoginBody>, cookie: CookieDirective)

  /** `logout` always clears the `token` cookie with the login's SameSite and
      Secure attributes and answers "Logout exitoso". */
  function Logout(env: Option<string>): (r: LogoutResult)
    ensures r.reply == Reply(200, Message("Logout exitoso"))
    ensures r.cookie.ClearCookie? && r.cookie.name == "token"
    ensures r.cookie.options.sameSite == LoginCookieOptions(env).sameSite
    ensures r.cookie.options.secure == LoginCookieOptions(env).secure
  {
    LogoutResult(Reply(200, Message("Logout exitoso")), ClearCookie("token", LogoutCookieOptions(env)))
  }

  /** Logging out twice leaves the browser as logging out once, and a login
      followed by a logout leaves no token. */
  lemma LogoutIdempotent(jar: map<string, string>, env: Option<string>, token: string)
    ensures var d := Logout(env).cookie;
      ApplyCookie(ApplyCookie(jar, d), d) == ApplyCookie(jar, d)
    ensures "token" !in ApplyCookie(ApplyCookie(jar, SetCookie("token", token, LoginCookieOptions(env))), Logout(env).cookie)
  {
    var d := Logout(env).cookie;
    assert ApplyCookie(ApplyCookie(jar, d), d) == jar - {"token"} - {"token"};
  }

  /** `me`: 401 without `req.user`; otherwise the user with no `password` key and
      every other attribute as it was. */
  function Me(user: Option<map<string, Json>>): (r: Reply<map<string, Json>>)
    ensures user.None? ==> r == Reply(401, Message("Unauthorized"))
    ensures user.Some? ==> r.status == 200 && r.body.Data? && r.body.value.Keys == user.value.Keys - {"password"}
    ensures user.Some? && r.body.Data? ==> forall k | k in r.body.value :: k in user.value && r.body.value[k] == user.value[k]
  {
    if user.None? then Reply(401, Message("Unauthorized"))
    else Reply(200, Data(map k | k in user.value && k != "password" :: user.value[k]))
  }
}
