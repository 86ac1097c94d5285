/**
 * The authentication middleware: bearer tokens for the API, the SSO session cookie for the
 * web routes, and role or permission requirements on a route.
 */
module AuthMiddleware {
  import opened Base
  import opened Strs
  import B64 = Base64Url
  import Jwt
  import Json
  import Dto
  import Http
  import Kv
  import Sso
  import Global

  // ---------------------------------------------------------------------------
  // AuthMiddleware: the Authorization header

  /** The token of an Authorization header made of exactly two space-separated parts, the first "Bearer". */
  function BearerToken(header: string): (t: Option<string>)
    ensures t.Some? ==> header == "Bearer " + t.value && ' ' !in t.value
  {
    var parts := Split(header, ' ');
    if |parts| != 2 || parts[0] != "Bearer" then None
    else
      JoinSplit(header, ' ');
      assert Join(parts, " ") == parts[0] + " " + Join(parts[1..], " ") by { JoinCons(parts[0], parts[1..], " "); }
      assert Join(parts[1..], " ") == parts[1];
      Some(parts[1])
  }

  /** Every space-free token is read back from "Bearer <token>". */
  lemma BearerOf(token: string)
    requires ' ' !in token
    ensures BearerToken("Bearer " + token) == Some(token)
  {
    SplitAtFirst("Bearer", ' ', token);
    assert "Bearer " + token == "Bearer" + [' '] + token;
    assert Split(token, ' ') == [token] by { NoSeparatorSplit(token, ' '); }
  }

  lemma NoSeparatorSplit(s: string, sep: char)
    requires sep !in s
    ensures Split(s, sep) == [s]
  {
    SplitJoin([s], sep);
    assert Join([s], [sep]) == s;
  }

  datatype ApiOutcome = Admitted(token: string, claims: Jwt.Claims) | Refused(message: string)

  /** What the middleware decides for a header, given the blacklist held in the store at `now`. */
  function Authenticate(mac: Jwt.Mac, key: string, header: string, db: Kv.Db, now: int, getFault: bool): (o: ApiOutcome)
    ensures o.Admitted? ==>
      header == "Bearer " + o.token
      && (getFault || Kv.GetSpec(db, o.token, now) != Kv.Hit("blacklisted"))
      && Jwt.Validate(mac, key, o.token, now) == Jwt.Valid(o.claims)
  {
    if header == "" then Refused("Missing Authorization header")
    else match BearerToken(header)
      case None => Refused("Invalid Authorization header format")
      case Some(token) =>
        if !getFault && Kv.GetSpec(db, token, now) == Kv.Hit("blacklisted") then Refused("Token has been invalidated")
        else match Jwt.Validate(mac, key, token, now)
          case Valid(c) => Admitted(token, c)
          case _ => Refused("Invalid or expired token")
  }

  /**
   * middleware.AuthMiddleware: a refused request ends with 401 and the refusal's message; an
   * admitted one goes on with the token's user id, roles and permissions in the context.
   * `getFault` says the blacklist lookup failed, which the middleware treats as not blacklisted.
   */
  method AuthMiddleware(ctx: Http.Context, kv: Kv.Store, mac: Jwt.Mac, key: string, now: int, getFault: bool)
    requires !ctx.aborted
    modifies ctx
    ensures var o := Authenticate(mac, key, Http.Header(ctx.request, "Authorization"), kv.data, now, getFault);
      (o.Refused? ==>
        ctx.aborted && ctx.responses == old(ctx.responses) + [Http.Error(401, o.message)] && ctx.values == old(ctx.values))
      && (o.Admitted? ==>
        !ctx.aborted && ctx.responses == old(ctx.responses)
        && ctx.values == old(ctx.values)["user_id" := Http.Text(o.claims.userId)]
                                        ["roles" := Http.Names(o.claims.roles)]
                                        ["permissions" := Http.Names(o.claims.permissions)]
                                        ["token" := Http.Text(o.token)])
    ensures ctx.cookies == old(ctx.cookies) && ctx.headers == old(ctx.headers)
  {
    var header := Http.Header(ctx.request, "Authorization");
    if header == "" {
      ctx.ErrorResponse(401, "Missing Authorization header");
      return;
    }
    var parts := Split(header, ' ');
    if |parts| != 2 || parts[0] != "Bearer" {
      ctx.ErrorResponse(401, "Invalid Authorization header format");
      return;
    }
    var token := parts[1];
    var val := kv.Get(token, now, getFault);
    if val == Kv.Hit("blacklisted") {
      ctx.ErrorResponse(401, "Token has been invalidated");
      return;
    }
    var verdict := Jwt.Validate(mac, key, token, now);
    if !verdict.Valid? {
      ctx.ErrorResponse(401, "Invalid or expired token");
      return;
    }
    ctx.Set("user_id", Http.Text(verdict.claims.userId));
    ctx.Set("roles", Http.Names(verdict.claims.roles));
    ctx.Set("permissions", Http.Names(verdict.claims.permissions));
    ctx.Set("token", Http.Text(token));
  }

  lemma EncodedHasNoSpace(b: seq<byte>)
    ensures ' ' !in B64.Encode(b)
  {
    var e := B64.Encode(b);
    assert forall i :: 0 <= i < |e| ==> B64.IsAlphabetChar(e[i]);
  }

  /** A signed token is base64url segments and dots, so it has no space. */
  lemma SignedHasNoSpace(mac: Jwt.Mac, key: string, a: Jwt.Alg, c: Jwt.Claims)
    ensures ' ' !in Jwt.Sign(mac, key, a, c)
  {
    var sig := mac(a, Octets(key), Octets(Jwt.SigningInput(a, c)));
    EncodedHasNoSpace(Octets(Json.Serialize(Jwt.Header(a))));
    EncodedHasNoSpace(Octets(Json.Serialize(Jwt.ClaimsJson(c))));
    EncodedHasNoSpace(sig);
    NoSpaceJoined(Jwt.Segment(Jwt.Header(a)), Jwt.Segment(Jwt.ClaimsJson(c)), B64.Encode(sig));
  }

  lemma NoSpaceJoined(s0: string, s1: string, s2: string)
    requires ' ' !in s0 && ' ' !in s1 && ' ' !in s2
    ensures ' ' !in s0 + "." + s1 + "." + s2
  {
  }

  /** A token the token service issued is admitted, with the claims it signed, until it expires, unless blacklisted. */
  lemma IssuedTokenAdmitted(mac: Jwt.Mac, key: string, hours: int, now: int, later: int, db: Kv.Db,
                            userId: string, roles: seq<string>, permissions: seq<string>)
    requires IsByteString(userId) && Jwt.ByteStrings(roles) && Jwt.ByteStrings(permissions)
    requires later < now + hours * 3600
    requires Kv.GetSpec(db, Jwt.GenerateToken(mac, key, hours, now, userId, roles, permissions), later) != Kv.Hit("blacklisted")
    ensures var token := Jwt.GenerateToken(mac, key, hours, now, userId, roles, permissions);
      Authenticate(mac, key, "Bearer " + token, db, later, false)
        == Admitted(token, Jwt.TokenClaims(userId, roles, permissions, now, hours))
  {
    var token := Jwt.GenerateToken(mac, key, hours, now, userId, roles, permissions);
    SignedHasNoSpace(mac, key, Jwt.HS256, Jwt.TokenClaims(userId, roles, permissions, now, hours));
    BearerOf(token);
    Jwt.GenerateValidate(mac, key, hours, now, later, userId, roles, permissions);
  }

  /** Once a token is blacklisted (as logout does), it is refused for as long as the entry lives, however valid its signature. */
  lemma BlacklistedRefused(mac: Jwt.Mac, key: string, db: Kv.Db, token: string, ttl: int, now: int, later: int)
    requires ' ' !in token
    requires ttl <= 0 || later < now + ttl
    ensures Authenticate(mac, key, "Bearer " + token, Kv.SetSpec(db, token, "blacklisted", ttl, now), later, false)
      == Refused("Token has been invalidated")
  {
    BearerOf(token);
    Kv.SetThenGet(db, token, "blacklisted", ttl, now, later);
  }

  // ---------------------------------------------------------------------------
  // AuthMiddlewareWeb: the SSO session

  /** The outcome of the session checks, in the order the middleware makes them. */
  datatype WebOutcome =
    | Admit(session: Dto.LoginResponse)
    | NoSession    // no usable cookie, or no stored session for it
    | Undecodable  // the stored session is not a login response
    | Revoked      // its token is blacklisted
    | Lapsed       // its token does not validate

  /** `sessionFault` and `blacklistFault` say that the two store lookups failed. */
  function WebCheck(mac: Jwt.Mac, key: string, r: Http.Request, db: Kv.Db, now: int,
                    sessionFault: bool, blacklistFault: bool): (o: WebOutcome)
    ensures o.Admit? ==>
      Sso.GetSSO(r).Some? && !sessionFault
      && Kv.GetSpec(db, Sso.SessionKey(Sso.GetSSO(r).value), now).Hit?
      && Dto.DecodeLoginResponse(Kv.GetSpec(db, Sso.SessionKey(Sso.GetSSO(r).value), now).s) == Some(o.session)
      && (blacklistFault || Kv.GetSpec(db, o.session.token, now) != Kv.Hit("blacklisted"))
      && Jwt.Validate(mac, key, o.session.token, now).Valid?
  {
    match Sso.GetSSO(r)
    case None => NoSession
    case Some(id) =>
      var stored := if sessionFault then Kv.Failed else Kv.GetSpec(db, Sso.SessionKey(id), now);
      if !stored.Hit? then NoSession
      else match Dto.DecodeLoginResponse(stored.s)
        case None => Undecodable
        case Some(user) =>
          if !blacklistFault && Kv.GetSpec(db, user.token, now) == Kv.Hit("blacklisted") then Revoked
          else if !Jwt.Validate(mac, key, user.token, now).Valid? then Lapsed
          else Admit(user)
  }

  /** The redirect to the login page with a message, which RedirectBackToLogin writes. */
  function BackToLogin(r: Http.Request, errMsg: string): Http.Response {
    Http.Redirect(302, Http.Url("/login", Global.LoginQuery(r.requestUri, errMsg)))
  }

  /**
   * middleware.AuthMiddlewareWeb, as written. Without a session the request is sent to
   * /login (303) after its URI is stored under the single key "return_to"; the other
   * refusals go back to the login page with a message. When the stored session does not
   * decode, the middleware redirects but does not abort, so the next handler still runs.
   */
  method AuthMiddlewareWeb(ctx: Http.Context, kv: Kv.Store, mac: Jwt.Mac, key: string, domain: string, now: int,
                           sessionFault: bool, blacklistFault: bool, returnToFault: bool)
    requires !ctx.aborted
    modifies ctx, kv
    ensures var o := WebCheck(mac, key, ctx.request, old(kv.data), now, sessionFault, blacklistFault);
      var cleared := old(ctx.cookies) + [Sso.SsoCookie("", -1, domain)];
      (o.NoSession? ==>
        ctx.aborted && ctx.cookies == cleared
        && ctx.responses == old(ctx.responses) + [Http.Redirect(303, Http.Raw("/login"))]
        && kv.data == (if returnToFault then old(kv.data)
                       else Kv.SetSpec(old(kv.data), "return_to", ctx.request.requestUri, 0, now)))
      && (o.Undecodable? ==>
        !ctx.aborted && ctx.cookies == cleared
        && ctx.responses == old(ctx.responses) + [BackToLogin(ctx.request, "Failed to parse user data")])
      && (o.Revoked? ==>
        ctx.aborted && ctx.cookies == cleared
        && ctx.responses == old(ctx.responses) + [BackToLogin(ctx.request, "Session has been invalidated, please log in again")])
      && (o.Lapsed? ==>
        ctx.aborted && ctx.cookies == old(ctx.cookies)
        && ctx.responses == old(ctx.responses) + [BackToLogin(ctx.request, "Session expired, please log in again")])
      && (!o.NoSession? ==> kv.data == old(kv.data))
      && (o.Admit? ==>
        !ctx.aborted && ctx.cookies == old(ctx.cookies) && ctx.responses == old(ctx.responses)
        && ctx.values == old(ctx.values)["user_id" := Http.Text(o.session.user.id)]
                                        ["email" := Http.Text(o.session.user.email)]
                                        ["roles" := Http.Names(o.session.user.roles)]
                                        ["permissions" := Http.Names(o.session.user.permissions)])
      && (!o.Admit? ==> ctx.values == old(ctx.values))
    ensures ctx.headers == old(ctx.headers)
  {
    ghost var o := WebCheck(mac, key, ctx.request, kv.data, now, sessionFault, blacklistFault);
    var userId := Sso.GetSSO(ctx.request);
    if userId.None? {
      SendToLogin(ctx, kv, domain, now, returnToFault);
      return;
    }
    var stored := kv.Get(Sso.SessionKey(userId.value), now, sessionFault);
    if !stored.Hit? {
      assert o == NoSession;
      SendToLogin(ctx, kv, domain, now, returnToFault);
      return;
    }
    var user := Dto.DecodeLoginResponse(stored.s);
    if user.None? {
      assert o == Undecodable;
      Sso.ClearSSO(ctx, domain);
      Global.RedirectBackToLogin(ctx, "/login", ctx.request.requestUri, "Failed to parse user data");
      return;
    }
    assert o.Revoked? || o.Lapsed? || o == Admit(user.value);
    CheckSessionToken(ctx, kv, mac, key, domain, now, user.value, blacklistFault);
  }

  /** The checks on a decoded session's token: not blacklisted, then valid; then its user goes into the context. */
  method CheckSessionToken(ctx: Http.Context, kv: Kv.Store, mac: Jwt.Mac, key: string, domain: string, now: int,
                           user: Dto.LoginResponse, blacklistFault: bool)
    requires !ctx.aborted
    modifies ctx
    ensures if !blacklistFault && Kv.GetSpec(kv.data, user.token, now) == Kv.Hit("blacklisted") then
        ctx.aborted && ctx.cookies == old(ctx.cookies) + [Sso.SsoCookie("", -1, domain)] && ctx.values == old(ctx.values)
        && ctx.responses == old(ctx.responses) + [BackToLogin(ctx.request, "Session has been invalidated, please log in again")]
      else if !Jwt.Validate(mac, key, user.token, now).Valid? then
        ctx.aborted && ctx.cookies == old(ctx.cookies) && ctx.values == old(ctx.values)
        && ctx.responses == old(ctx.responses) + [BackToLogin(ctx.request, "Session expired, please log in again")]
      else
        !ctx.aborted && ctx.cookies == old(ctx.cookies) && ctx.responses == old(ctx.responses)
        && ctx.values == old(ctx.values)["user_id" := Http.Text(user.user.id)]
                                        ["email" := Http.Text(user.user.email)]
                                        ["roles" := Http.Names(user.user.roles)]
                                        ["permissions" := Http.Names(user.user.permissions)]
    ensures ctx.headers == old(ctx.headers)
  {
    var val := kv.Get(user.token, now, blacklistFault);
    if val == Kv.Hit("blacklisted") {
      Sso.ClearSSO(ctx, domain);
      Global.RedirectBackToLogin(ctx, "/login", ctx.request.requestUri, "Session has been invalidated, please log in again");
      ctx.Abort();
      return;
    }
    if !Jwt.Validate(mac, key, user.token, now).Valid? {
      Global.RedirectBackToLogin(ctx, "/login", ctx.request.requestUri, "Session expired, please log in again");
      ctx.Abort();
      return;
    }
    ctx.Set("user_id", Http.Text(user.user.id));
    ctx.Set("email", Http.Text(user.user.email));
    ctx.Set("roles", Http.Names(user.user.roles));
    ctx.Set("permissions", Http.Names(user.user.permissions));
  }

  /** Without a session: the cookie cleared, the request's URI kept under "return_to", then 303 to /login. */
  method SendToLogin(ctx: Http.Context, kv: Kv.Store, domain: string, now: int, returnToFault: bool)
    modifies ctx, kv
    ensures ctx.aborted && ctx.cookies == old(ctx.cookies) + [Sso.SsoCookie("", -1, domain)]
    ensures ctx.responses == old(ctx.responses) + [Http.Redirect(303, Http.Raw("/login"))]
    ensures kv.data == (if returnToFault then old(kv.data)
                        else Kv.SetSpec(old(kv.data), "return_to", ctx.request.requestUri, 0, now))
    ensures ctx.values == old(ctx.values) && ctx.headers == old(ctx.headers)
  {
    Sso.ClearSSO(ctx, domain);
    var _ := kv.Set("return_to", ctx.request.requestUri, 0, now, returnToFault);
    ctx.Respond(Http.Redirect(303, Http.Raw("/login")));
    ctx.Abort();
  }

  /**
   * AuthMiddlewareWeb with the abort its undecodable-session branch lacks: the chain goes on
   * exactly for an admitted session, and then with that session's user in the context.
   */
  method AuthMiddlewareWebCorrected(ctx: Http.Context, kv: Kv.Store, mac: Jwt.Mac, key: string, domain: string, now: int,
                                    sessionFault: bool, blacklistFault: bool, returnToFault: bool)
    requires !ctx.aborted
    modifies ctx, kv
    ensures var o := WebCheck(mac, key, ctx.request, old(kv.data), now, sessionFault, blacklistFault);
      (!ctx.aborted <==> o.Admit?)
      && (o.Admit? ==> ctx.values == old(ctx.values)["user_id" := Http.Text(o.session.user.id)]
                                                    ["email" := Http.Text(o.session.user.email)]
                                                    ["roles" := Http.Names(o.session.user.roles)]
                                                    ["permissions" := Http.Names(o.session.user.permissions)])
      && (!o.Admit? ==> ctx.values == old(ctx.values))
      && (o.Undecodable? ==> ctx.responses == old(ctx.responses) + [BackToLogin(ctx.request, "Failed to parse user data")])
  {
    var o := WebCheck(mac, key, ctx.request, kv.data, now, sessionFault, blacklistFault);
    AuthMiddlewareWeb(ctx, kv, mac, key, domain, now, sessionFault, blacklistFault, returnToFault);
    if o.Undecodable? {
      ctx.Abort();
    }
  }

  /**
   * The undecodable-session branch concretely: a browser whose cookie names user "u1", whose
   * stored session is the text "ab", is redirected to the login page, yet the request is not
   * aborted and goes on to the next handler with no user in the context.
   */
  method UndecodableSessionRunsNextHandler() returns (aborted: bool, responses: seq<Http.Response>,
                                                      values: map<string, Http.CtxValue>)
    ensures !aborted && values == map[]
    ensures |responses| == 1 && responses[0].Redirect? && responses[0].status == 302
  {
    var r := Http.Request("GET", "/dashboard", "/dashboard", "127.0.0.1", map[], map[], map[],
                          map[Sso.CookieName := Sso.CookieValue("u1")]);
    var ctx := new Http.Context(r);
    var kv := new Kv.Store();
    var _ := kv.Set(Sso.SessionKey("u1"), "ab", 0, 0, false);
    var mac: Jwt.Mac := (a: Jwt.Alg, k: seq<byte>, m: seq<byte>) => [];
    assert WebCheck(mac, "", r, kv.data, 0, false, false) == Undecodable by {
      Sso.GetAfterSet(r, map[], "u1", 0, "");
      Kv.SetThenGet(map[], Sso.SessionKey("u1"), "ab", 0, 0, 0);
      StoredTextUndecodable(mac, r, kv.data);
    }
    AuthMiddlewareWeb(ctx, kv, mac, "", "", 0, false, false, false);
    aborted, responses, values := ctx.aborted, ctx.responses, ctx.values;
  }

  lemma StoredTextUndecodable(mac: Jwt.Mac, r: Http.Request, db: Kv.Db)
    requires Sso.GetSSO(r) == Some("u1")
    requires Kv.GetSpec(db, Sso.SessionKey("u1"), 0) == Kv.Hit("ab")
    ensures WebCheck(mac, "", r, db, 0, false, false) == Undecodable
  {
    Dto.HexStringIsNoLoginResponse("ab");
  }

  /**
   * A browser that signed in (SetSSO with a freshly issued token) is admitted by the web
   * middleware as that session's user while both the session and the token last.
   */
  lemma SignedInSessionAdmitted(mac: Jwt.Mac, key: string, hours: int, maxAge: int, now: int, later: int,
                                db: Kv.Db, jar: map<string, string>, r: Http.Request, domain: string,
                                sub: Dto.LoginResponse)
    requires sub.token == Jwt.GenerateToken(mac, key, hours, now, sub.user.id, sub.user.roles, sub.user.permissions)
    requires IsByteString(sub.user.id) && sub.user.id != ""
    requires Jwt.ByteStrings(sub.user.roles) && Jwt.ByteStrings(sub.user.permissions)
    requires now <= later < now + maxAge && later < now + hours * 3600
    requires r.cookies == Http.StoreCookie(jar, Sso.SsoCookie(Sso.CookieValue(sub.user.id), maxAge, domain))
    requires sub.token != Sso.SessionKey(sub.user.id)
    requires Kv.GetSpec(db, sub.token, later) != Kv.Hit("blacklisted")
    ensures var stored := Kv.SetSpec(db, Sso.SessionKey(sub.user.id), Dto.EncodeLoginResponse(sub), maxAge, now);
      WebCheck(mac, key, r, stored, later, false, false) == Admit(sub)
  {
    var id := sub.user.id;
    var stored := Kv.SetSpec(db, Sso.SessionKey(id), Dto.EncodeLoginResponse(sub), maxAge, now);
    Sso.GetAfterSet(r, jar, id, maxAge, domain);
    StoredSessionReads(db, id, sub, maxAge, now, later);
    Jwt.GenerateValidate(mac, key, hours, now, later, id, sub.user.roles, sub.user.permissions);
    WebCheckAdmits(mac, key, r, stored, later, id, sub);
  }

  /** The session SetSSO stored reads back as the login response, and the blacklist entry of its token is untouched. */
  lemma StoredSessionReads(db: Kv.Db, id: string, sub: Dto.LoginResponse, maxAge: int, now: int, later: int)
    requires now <= later < now + maxAge
    requires sub.token != Sso.SessionKey(id)
    ensures var stored := Kv.SetSpec(db, Sso.SessionKey(id), Dto.EncodeLoginResponse(sub), maxAge, now);
      Kv.GetSpec(stored, Sso.SessionKey(id), later) == Kv.Hit(Dto.EncodeLoginResponse(sub))
      && Dto.DecodeLoginResponse(Dto.EncodeLoginResponse(sub)) == Some(sub)
      && Kv.GetSpec(stored, sub.token, later) == Kv.GetSpec(db, sub.token, later)
  {
    var stored := Kv.SetSpec(db, Sso.SessionKey(id), Dto.EncodeLoginResponse(sub), maxAge, now);
    Kv.SetThenGet(db, Sso.SessionKey(id), Dto.EncodeLoginResponse(sub), maxAge, now, later);
    Dto.LoginResponseRoundTrip(sub);
    Kv.SetOtherKey(db, Sso.SessionKey(id), sub.token, Dto.EncodeLoginResponse(sub), maxAge, now, later);
  }

  /** The web guard admits a cookie whose stored session decodes to an unrevoked, valid token. */
  lemma WebCheckAdmits(mac: Jwt.Mac, key: string, r: Http.Request, db: Kv.Db, now: int, id: string, sub: Dto.LoginResponse)
    requires Sso.GetSSO(r) == Some(id)
    requires Kv.GetSpec(db, Sso.SessionKey(id), now).Hit?
    requires Dto.DecodeLoginResponse(Kv.GetSpec(db, Sso.SessionKey(id), now).s) == Some(sub)
    requires Kv.GetSpec(db, sub.token, now) != Kv.Hit("blacklisted")
    requires Jwt.Validate(mac, key, sub.token, now).Valid?
    ensures WebCheck(mac, key, r, db, now, false, false) == Admit(sub)
  {
  }

  // ---------------------------------------------------------------------------
  // Authorize: role and permission requirements

  /** One alternative, "role:<name>" or "permission:<name>", and whether the user meets it. */
  predicate Grants(item: string, roles: seq<string>, permissions: seq<string>) {
    match Cut(item, ':')
    case None => false
    case Some((kind, name)) => (kind == "role" && name in roles) || (kind == "permission" && name in permissions)
  }

  /** A requirement is met when the user meets one of its '|'-separated alternatives; one without a ':' never counts. */
  predicate Satisfied(requirements: string, roles: seq<string>, permissions: seq<string>) {
    AnyGrants(Split(requirements, '|'), roles, permissions)
  }

  predicate AnyGrants(items: seq<string>, roles: seq<string>, permissions: seq<string>) {
    exists i :: 0 <= i < |items| && Grants(items[i], roles, permissions)
  }

  lemma AnyGrantsCons(x: string, xs: seq<string>, roles: seq<string>, permissions: seq<string>)
    ensures AnyGrants([x] + xs, roles, permissions) <==> Grants(x, roles, permissions) || AnyGrants(xs, roles, permissions)
  {
    var all := [x] + xs;
    if AnyGrants(xs, roles, permissions) {
      var i :| 0 <= i < |xs| && Grants(xs[i], roles, permissions);
      assert all[i + 1] == xs[i];
    }
    if AnyGrants(all, roles, permissions) {
      var i :| 0 <= i < |all| && Grants(all[i], roles, permissions);
      if i > 0 {
        assert all[i] == xs[i - 1];
      }
    }
    if Grants(x, roles, permissions) {
      assert all[0] == x;
    }
  }

  /** sliceContains */
  method SliceContains(slice: seq<string>, item: string) returns (found: bool)
    ensures found <==> item in slice
  {
    var i := 0;
    while i < |slice|
      invariant 0 <= i <= |slice|
      invariant item !in slice[..i]
    {
      if slice[i] == item {
        return true;
      }
      i := i + 1;
    }
    assert slice[..i] == slice;
    return false;
  }

  /** The loop over the alternatives: the first one met stops it. */
  method Meets(requirements: string, roles: seq<string>, permissions: seq<string>) returns (authorized: bool)
    ensures authorized <==> Satisfied(requirements, roles, permissions)
  {
    var items := Split(requirements, '|');
    authorized := false;
    var i := 0;
    while i < |items|
      invariant 0 <= i <= |items|
      invariant authorized ==> Satisfied(requirements, roles, permissions)
      invariant !authorized ==> forall j :: 0 <= j < i ==> !Grants(items[j], roles, permissions)
    {
      var parts := Cut(items[i], ':');
      if parts.Some? {
        var (kind, name) := parts.value;
        var hasRole := SliceContains(roles, name);
        if kind == "role" && hasRole {
          authorized := true;
          break;
        }
        var hasPermission := SliceContains(permissions, name);
        if kind == "permission" && hasPermission {
          authorized := true;
          break;
        }
      }
      i := i + 1;
    }
  }

  /** A list of names stored in the context under `key`; None when it is missing or of another type. */
  function NamesOf(values: map<string, Http.CtxValue>, key: string): Option<seq<string>> {
    if key in values && values[key].Names? then Some(values[key].names) else None
  }

  /**
   * middleware.Authorize: the request goes on exactly when the context holds the user's
   * roles and permissions and they meet the requirement; otherwise it ends with 403.
   */
  method Authorize(ctx: Http.Context, requirements: string)
    requires !ctx.aborted
    modifies ctx
    ensures var roles, perms := NamesOf(ctx.values, "roles"), NamesOf(ctx.values, "permissions");
      (roles.None? || perms.None? ==>
        ctx.aborted && ctx.responses == old(ctx.responses) + [Http.Error(403, "You are not authorized to perform this action")])
      && (roles.Some? && perms.Some? && !Satisfied(requirements, roles.value, perms.value) ==>
        ctx.aborted && ctx.responses == old(ctx.responses) + [Http.Error(403, "You do not have the required permissions")])
      && (roles.Some? && perms.Some? && Satisfied(requirements, roles.value, perms.value) ==>
        !ctx.aborted && ctx.responses == old(ctx.responses))
    ensures ctx.values == old(ctx.values) && ctx.cookies == old(ctx.cookies) && ctx.headers == old(ctx.headers)
  {
    var roles := NamesOf(ctx.values, "roles");
    if roles.None? {
      ctx.ErrorResponse(403, "You are not authorized to perform this action");
      return;
    }
    var permissions := NamesOf(ctx.values, "permissions");
    if permissions.None? {
      ctx.ErrorResponse(403, "You are not authorized to perform this action");
      return;
    }
    var authorized := Meets(requirements, roles.value, permissions.value);
    if !authorized {
      ctx.ErrorResponse(403, "You do not have the required permissions");
      return;
    }
  }

  /** The first alternative decides unless it fails, and then the rest of the requirement does. */
  lemma SatisfiedAlternatives(a: string, b: string, roles: seq<string>, permissions: seq<string>)
    requires '|' !in a
    ensures Satisfied(a + "|" + b, roles, permissions) <==> Grants(a, roles, permissions) || Satisfied(b, roles, permissions)
  {
    SplitAtFirst(a, '|', b);
    assert a + "|" + b == a + ['|'] + b;
    AnyGrantsCons(a, Split(b, '|'), roles, permissions);
  }

  /**
   * An alternative without its own "role:" or "permission:" prefix is skipped, not read as
   * one more name of the kind before it: "role:admin|super-admin" asks for the role admin
   * only, and the role super-admin does not meet it.
   */
  lemma UntypedAlternativeIgnored(kind: string, name: string, other: string, roles: seq<string>, permissions: seq<string>)
    requires ':' !in kind && '|' !in kind && '|' !in name
    requires ':' !in other && '|' !in other
    ensures Satisfied(kind + ":" + name + "|" + other, roles, permissions)
      <==> (kind == "role" && name in roles) || (kind == "permission" && name in permissions)
  {
    var first := kind + ":" + name;
    assert '|' !in first;
    assert kind + ":" + name + "|" + other == first + "|" + other;
    SatisfiedAlternatives(first, other, roles, permissions);
    NoSeparatorSplit(other, '|');
    assert !Grants(other, roles, permissions);
    assert !Satisfied(other, roles, permissions) by {
      assert Split(other, '|') == [other];
    }
    assert first == kind + [':'] + name;
    CutAt(kind, ':', name);
  }

  lemma CutAt(a: string, sep: char, b: string)
    requires sep !in a
    ensures Cut(a + [sep] + b, sep) == Some((a, b))
  {
    var s := a + [sep] + b;
    IndexOfAfter(a, sep, b);
    assert s[..|a|] == a && s[|a| + 1..] == b;
  }
}
