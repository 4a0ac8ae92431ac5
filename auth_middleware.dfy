/** `authMiddleware` of auth.middlewares.js: choose a token, verify it, look
    the user up, and attach the user (without its password) to the request.
    `verifyToken` lives in a helper that is not part of this model and is a
    parameter. */
module AuthMiddleware {
  import opened Wrappers
  import opened Json
  import JsString
  import U = UserModel
  import opened Store

  /** What `verifyToken(token)` gives: a falsy value, a thrown error, or the
      decoded payload. */
  datatype Verified = Falsy | Throws | Decoded(claims: map<string, Json>)

  /** How the middleware ends: `next()` once, or a response. */
  datatype Outcome = Next | Respond(status: int, message: string)

  /** An incoming request: the `token` cookie, the two header keys the code
      reads, and `req.user`, which the middleware sets. */
  class Request {
    const cookieToken: Option<string>
    const authorization: Option<string>
    const authorizationCapital: Option<string>
    var user: Option<map<string, Json>>

    constructor (cookieToken: Option<string>, authorization: Option<string>, authorizationCapital: Option<string>)
      ensures this.cookieToken == cookieToken && this.authorization == authorization
      ensures this.authorizationCapital == authorizationCapital && user.None?
    {
      this.cookieToken := cookieToken;
      this.authorization := authorization;
      this.authorizationCapital := authorizationCapital;
      user := None;
    }
  }

  /** A string is truthy when it is present and non-empty. */
  predicate Given(s: Option<string>) {
    s.Some? && s.value != ""
  }

  const Bearer: string := "Bearer "

  /** A header starting with `Bearer ` splits into "Bearer" and the pieces of the rest. */
  lemma BearerPieces(h: string)
    requires JsString.StartsWith(h, Bearer)
    ensures JsString.Split(h, ' ') == ["Bearer"] + JsString.Split(h[|Bearer|..], ' ')
  {
    assert h == "Bearer" + [' '] + h[|Bearer|..] by {
      assert h[..|Bearer|] == Bearer;
    }
    JsString.SplitPiece("Bearer", h[|Bearer|..], ' ');
  }

  /** The token the middleware ends up with; None when it is falsy. */
  function SelectToken(cookieToken: Option<string>, authorization: Option<string>, authorizationCapital: Option<string>): Option<string> {
    if Given(cookieToken) then cookieToken
    else
      var header := if Given(authorization) then authorization else authorizationCapital;
      if Given(header) && JsString.StartsWith(header.value, Bearer) then
        BearerPieces(header.value);
        var t := JsString.Split(header.value, ' ')[1];
        if t != "" then Some(t) else None
      else None
  }

  /** A cookie token wins, and the headers are never consulted. */
  lemma CookieWins(c: string, a: Option<string>, b: Option<string>, a': Option<string>, b': Option<string>)
    requires c != ""
    ensures SelectToken(Some(c), a, b) == SelectToken(Some(c), a', b') == Some(c)
  {
  }

  /** Without a cookie, a header `Bearer t` gives the text of `t` up to its first
      space, and `authorization` is preferred to `Authorization`. */
  lemma {:induction false} BearerToken(cookie: Option<string>, t: string, other: Option<string>)
    requires !Given(cookie)
    ensures SelectToken(cookie, Some(Bearer + t), other) ==
      (if JsString.Split(t, ' ')[0] != "" then Some(JsString.Split(t, ' ')[0]) else None)
    ensures SelectToken(cookie, None, Some(Bearer + t)) == SelectToken(cookie, Some(Bearer + t), other)
  {
    var h := Bearer + t;
    assert JsString.StartsWith(h, Bearer) by {
      assert h[..|Bearer|] == Bearer;
    }
    BearerPieces(h);
    assert h[|Bearer|..] == t;
  }

  /** A header that does not start with `Bearer ` yields no token. */
  lemma NotBearer(cookie: Option<string>, h: string)
    requires !Given(cookie) && !JsString.StartsWith(h, Bearer)
    ensures SelectToken(cookie, Some(h), None) == None
    ensures SelectToken(cookie, None, Some(h)) == None
  {
  }

  /** `Bearer ` followed by nothing yields no token. */
  lemma BearerAlone(cookie: Option<string>)
    requires !Given(cookie)
    ensures SelectToken(cookie, Some(Bearer), None) == None
  {
    BearerToken(cookie, "", None);
    assert Bearer + "" == Bearer;
  }

  /** The middleware. On success `req.user` is the user row without the password
      (no `deleted` filter: a soft-deleted user is accepted) and `next()` runs
      once; on every other path `req.user` is untouched. */
  method Authenticate(req: Request, users: map<int, U.User>, verify: string -> Verified) returns (out: Outcome)
    modifies req
    ensures var token := SelectToken(req.cookieToken, req.authorization, req.authorizationCapital);
      && (token.None? ==> out == Respond(401, "Acceso Denegado, token no encontrado"))
      && (token.Some? && verify(token.value) == Falsy ==> out == Respond(401, "Token inválido"))
      && (token.Some? && verify(token.value) == Throws ==> out == Respond(500, "Error interno del servidor"))
      && (token.Some? && verify(token.value).Decoded? ==>
            var found := PkLookup(Field(verify(token.value).claims, "id"));
            && (found == LookupThrows ==> out == Respond(500, "Error interno del servidor"))
            && (found == NotFound || (found.Found? && found.id !in users) ==> out == Respond(401, "Usuario no encontrado"))
            && (found.Found? && found.id in users ==>
                  out == Next && req.user == Some(U.UserJson(found.id, users[found.id], false))))
    ensures out != Next ==> req.user == old(req.user)
    ensures out == Next ==> req.user.Some? && "password" !in req.user.value
  {
    var token := req.cookieToken;
    if !Given(token) {
      var header := if Given(req.authorization) then req.authorization else req.authorizationCapital;
      if Given(header) && JsString.StartsWith(header.value, Bearer) {
        BearerPieces(header.value);
        token := Some(JsString.Split(header.value, ' ')[1]);
      }
    }
    if !Given(token) {
      return Respond(401, "Acceso Denegado, token no encontrado");
    }
    var decoded := verify(token.value);
    if decoded == Throws {
      return Respond(500, "Error interno del servidor");
    }
    if decoded == Falsy {
      return Respond(401, "Token inválido");
    }
    var found := PkLookup(Field(decoded.claims, "id"));
    if found == LookupThrows {
      return Respond(500, "Error interno del servidor");
    }
    if found == NotFound || found.id !in users {
      return Respond(401, "Usuario no encontrado");
    }
    req.user := Some(U.UserJson(found.id, users[found.id], false));
    out := Next;
  }
}
