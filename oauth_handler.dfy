/**
 * The OAuth authorization-code provider's endpoints (section 4.1 of RFC 6749): authorize,
 * token, and the provider's own login form and logout. Every redirect and response is
 * written to the request context; none of them aborts the handler chain except the token
 * endpoint's errors.
 */
module OauthHandler {
  import opened Base
  import opened Domain
  import Dto
  import Json
  import Global
  import Http
  import Kv
  import Sso
  import Csrf
  import AUC = AuthUseCase
  import UR = UserRepository
  import OUC = OauthUseCase

  /** The provider's login page. */
  const LoginPath := "/api/v1/oauth/login"

  // ---------------------------------------------------------------------------
  // Authorize

  /** client_id and redirect_uri are given and response_type is "code". */
  predicate ParamsOk(r: Http.Request) {
    Http.Query(r, "client_id") != "" && Http.Query(r, "redirect_uri") != "" && Http.Query(r, "response_type") == "code"
  }

  /** The client is registered and its redirect URI is exactly the one given. */
  predicate Registered(clients: map<string, OauthClient>, clientId: string, redirectUri: string) {
    clientId in clients && clients[clientId].redirect == redirectUri
  }

  /** Where Authorize's checks lead. */
  datatype AuthorizeStep =
    | BadRequest
    | BadClient
    | SignIn
    | Unparsable
    | Grant(user: Dto.LoginResponse)

  /** The checks before the session is read: None when the request passes them and has a session cookie. */
  function Gate(clients: map<string, OauthClient>, r: Http.Request): (s: Option<AuthorizeStep>)
    ensures s.None? ==> Sso.GetSSO(r).Some?
  {
    if !ParamsOk(r) then Some(BadRequest)
    else if !Registered(clients, Http.Query(r, "client_id"), Http.Query(r, "redirect_uri")) then Some(BadClient)
    else if Sso.GetSSO(r).None? then Some(SignIn)
    else None
  }

  /** As written: the decoded cookie value itself is parsed as the login response. */
  function AuthorizeCheck(clients: map<string, OauthClient>, r: Http.Request): AuthorizeStep {
    match Gate(clients, r)
    case Some(s) => s
    case None =>
      match Dto.DecodeLoginResponse(Sso.GetSSO(r).value)
      case None => Unparsable
      case Some(u) => Grant(u)
  }

  /**
   * Corrected: the cookie holds the user id, so the login response is read from the store
   * under "sso:<id>", as AuthMiddlewareWeb does; without a stored session the browser is
   * sent to sign in. `getFault` says the store's GET failed.
   */
  function AuthorizeCheckCorrected(clients: map<string, OauthClient>, r: Http.Request, db: Kv.Db, now: int, getFault: bool)
    : AuthorizeStep
  {
    match Gate(clients, r)
    case Some(s) => s
    case None =>
      var g := if getFault then Kv.Failed else Kv.GetSpec(db, Sso.SessionKey(Sso.GetSSO(r).value), now);
      if !g.Hit? then SignIn
      else match Dto.DecodeLoginResponse(g.s)
        case None => Unparsable
        case Some(u) => Grant(u)
  }

  /** RedirectBackToLogin to this provider's login page, returning to the request's URI. */
  function BackToLogin(r: Http.Request, errMsg: string): Http.Response {
    Http.Redirect(302, Http.Url(LoginPath, Global.LoginQuery(r.requestUri, errMsg)))
  }

  /** What Authorize does after its checks: whether the session cookie is cleared, the response, and the code record stored. */
  datatype Reply = Reply(clearSso: bool, response: Http.Response, stored: Option<Dto.CodeRecord>)

  /**
   * The reply to a step. A code is minted for a granted user from `random`; `storeFault`
   * says storing it failed and `redirectParses` whether url.Parse takes the redirect URI.
   */
  function AuthorizeReply(step: AuthorizeStep, r: Http.Request, random: seq<byte>, now: int,
                          storeFault: bool, redirectParses: bool): Reply
    requires |random| == 32
  {
    match step
    case BadRequest => Reply(true, BackToLogin(r, "Invalid request parameters"), None)
    case BadClient => Reply(true, BackToLogin(r, "Invalid client or redirect URI"), None)
    case SignIn => Reply(false, Http.Redirect(303, Http.Url(LoginPath, [("return_to", r.requestUri)])), None)
    case Unparsable => Reply(true, BackToLogin(r, "Failed to parse user data"), None)
    case Grant(user) =>
      var redirectUri := Http.Query(r, "redirect_uri");
      var rec := OUC.NewCodeRecord(random, Http.Query(r, "client_id"), redirectUri, user, now);
      if storeFault then Reply(true, BackToLogin(r, "Failed to generate authorization code"), None)
      else if !redirectParses then Reply(true, BackToLogin(r, "Invalid redirect URI"), Some(rec))
      else Reply(false, Http.Redirect(303, Http.WithParam(redirectUri, "code", rec.code)), Some(rec))
  }

  /** The store after a reply: the code record is kept under the code for ten minutes. */
  function StoreAfter(db: Kv.Db, reply: Reply, now: int): Kv.Db {
    match reply.stored
    case None => db
    case Some(rec) => Kv.SetSpec(db, rec.code, Dto.EncodeCodeRecord(rec), OUC.CodeLifetime, now)
  }

  /** What a login handler changes: the store, the context's responses, cookies and headers, and the outbox. */
  datatype Effects = Effects(db: Kv.Db, responses: seq<Http.Response>, cookies: seq<Http.SetCookie>,
                             headers: seq<(string, string)>, sent: seq<AUC.Mail>)

  // ---------------------------------------------------------------------------
  // Token

  datatype TokenOutcome = Refuse(status: int, message: string) | Exchange(user: Dto.LoginResponse)

  /** The client's checks, before any code is looked up: None when they all pass. */
  function ClientCheck(clients: map<string, OauthClient>, checkSecret: (string, string) -> bool, r: Http.Request)
    : (o: Option<TokenOutcome>)
    ensures o.None? ==> Http.PostForm(r, "client_id") in clients
  {
    var clientId, secret := Http.PostForm(r, "client_id"), Http.PostForm(r, "client_secret");
    var redirectUri, code := Http.PostForm(r, "redirect_uri"), Http.PostForm(r, "code");
    if clientId == "" || secret == "" || redirectUri == "" || code == "" then Some(Refuse(400, "Invalid request parameters"))
    else if clientId !in clients then Some(Refuse(400, "Invalid client or client secret"))
    else if clients[clientId].redirect != redirectUri then Some(Refuse(400, "Invalid redirect URI"))
    else if !checkSecret(clients[clientId].secret, secret) then Some(Refuse(401, "Invalid client"))
    else None
  }

  /**
   * The token endpoint's decision; `getFault` says the store's GET failed. The code is only
   * read. A user is handed out only for a live record stored under the posted code, unexpired,
   * and issued to this client for this redirect URI.
   */
  function TokenCheck(clients: map<string, OauthClient>, checkSecret: (string, string) -> bool, r: Http.Request,
                      db: Kv.Db, now: int, getFault: bool): (o: TokenOutcome)
    ensures ClientCheck(clients, checkSecret, r).Some? ==> o == ClientCheck(clients, checkSecret, r).value
    ensures o.Exchange? ==>
      var code := Http.PostForm(r, "code");
      Http.PostForm(r, "client_id") in clients && !getFault && Kv.GetSpec(db, code, now).Hit?
      && var ac := Dto.DecodeCodeRecord(Kv.GetSpec(db, code, now).s);
      ac.Some? && ac.value.userSub == o.user && now <= ac.value.expiresAt && ac.value.code == code
      && ac.value.clientId == clients[Http.PostForm(r, "client_id")].id && ac.value.redirectUri == Http.PostForm(r, "redirect_uri")
  {
    match ClientCheck(clients, checkSecret, r)
    case Some(o) => o
    case None =>
      var client, redirectUri, code := clients[Http.PostForm(r, "client_id")], Http.PostForm(r, "redirect_uri"), Http.PostForm(r, "code");
      var g := if getFault then Kv.Failed else Kv.GetSpec(db, code, now);
      if !g.Hit? then Refuse(400, "Invalid authorization code")
      else match Dto.DecodeCodeRecord(g.s)
        case None => Refuse(500, "Failed to parse authorization code data")
        case Some(ac) =>
          if now > ac.expiresAt || ac.clientId != client.id then Refuse(400, "Invalid grant")
          else if ac.redirectUri != redirectUri then Refuse(400, "Invalid redirect URI")
          else if ac.code != code then Refuse(400, "Invalid authorization code")
          else Exchange(ac.userSub)
  }

  // ---------------------------------------------------------------------------
  // The handler

  class OauthHandler {
    /** The registered clients by id (the oauth client use case's FindByID). */
    const clients: map<string, OauthClient>
    /** The auth use case; its store is the one every endpoint here uses. */
    const auth: AUC.AuthUseCase
    /** bcrypt.CompareHashAndPassword(hash, secret) == nil. */
    const checkSecret: (string, string) -> bool
    /** The validator's "email" rule. */
    const isEmail: string -> bool
    const cookieDomain: string

    constructor(clients: map<string, OauthClient>, auth: AUC.AuthUseCase, checkSecret: (string, string) -> bool,
                isEmail: string -> bool, cookieDomain: string)
      ensures this.clients == clients && this.auth == auth && this.checkSecret == checkSecret
      ensures this.isEmail == isEmail && this.cookieDomain == cookieDomain
    {
      this.clients := clients;
      this.auth := auth;
      this.checkSecret := checkSecret;
      this.isEmail := isEmail;
      this.cookieDomain := cookieDomain;
    }

    /** ClearSSO, then back to the login page with the message. */
    method Reject(ctx: Http.Context, errMsg: string)
      modifies ctx
      ensures ctx.cookies == old(ctx.cookies) + [Sso.SsoCookie("", -1, cookieDomain)]
      ensures ctx.responses == old(ctx.responses) + [BackToLogin(ctx.request, errMsg)]
      ensures ctx.values == old(ctx.values) && ctx.headers == old(ctx.headers) && ctx.aborted == old(ctx.aborted)
    {
      Sso.ClearSSO(ctx, cookieDomain);
      Global.RedirectBackToLogin(ctx, LoginPath, ctx.request.requestUri, errMsg);
    }

    /** Authorize's steps once the checks have passed and `step` is known. */
    method Answer(ctx: Http.Context, step: AuthorizeStep, now: int, random: seq<byte>,
                  storeErr: Option<string>, redirectParses: bool)
      requires |random| == 32
      modifies ctx, auth.kv
      ensures var reply := AuthorizeReply(step, ctx.request, random, now, storeErr.Some?, redirectParses);
        ctx.cookies == old(ctx.cookies) + (if reply.clearSso then [Sso.SsoCookie("", -1, cookieDomain)] else [])
        && ctx.responses == old(ctx.responses) + [reply.response]
        && auth.kv.data == StoreAfter(old(auth.kv.data), reply, now)
      ensures ctx.values == old(ctx.values) && ctx.headers == old(ctx.headers) && ctx.aborted == old(ctx.aborted)
    {
      var r := ctx.request;
      match step
      case BadRequest => Reject(ctx, "Invalid request parameters");
      case BadClient => Reject(ctx, "Invalid client or redirect URI");
      case SignIn => ctx.Respond(Http.Redirect(303, Http.Url(LoginPath, [("return_to", r.requestUri)])));
      case Unparsable => Reject(ctx, "Failed to parse user data");
      case Grant(user) =>
        var clientId, redirectUri := Http.Query(r, "client_id"), Http.Query(r, "redirect_uri");
        var data, err := OUC.Authorize(auth.kv, random, clientId, redirectUri, Http.Query(r, "response_type"),
                                       user, now, storeErr);
        if err.Some? {
          Reject(ctx, "Failed to generate authorization code");
          return;
        }
        if !redirectParses {
          Reject(ctx, "Invalid redirect URI");
          return;
        }
        ctx.Respond(Http.Redirect(303, Http.WithParam(redirectUri, "code", data.code)));
    }

    /**
     * Authorize, as written. `random` is the code's random octets, `storeErr` the store's
     * error when the code record cannot be kept, `redirectParses` whether url.Parse takes
     * the redirect URI.
     */
    method Authorize(ctx: Http.Context, now: int, random: seq<byte>, storeErr: Option<string>, redirectParses: bool)
      requires |random| == 32
      modifies ctx, auth.kv
      ensures var reply := AuthorizeReply(AuthorizeCheck(clients, ctx.request), ctx.request, random, now, storeErr.Some?, redirectParses);
        ctx.cookies == old(ctx.cookies) + (if reply.clearSso then [Sso.SsoCookie("", -1, cookieDomain)] else [])
        && ctx.responses == old(ctx.responses) + [reply.response]
        && auth.kv.data == StoreAfter(old(auth.kv.data), reply, now)
      ensures ctx.values == old(ctx.values) && ctx.headers == old(ctx.headers) && ctx.aborted == old(ctx.aborted)
    {
      var r := ctx.request;
      var clientId, redirectUri := Http.Query(r, "client_id"), Http.Query(r, "redirect_uri");
      if clientId == "" || redirectUri == "" || Http.Query(r, "response_type") != "code" {
        Answer(ctx, BadRequest, now, random, storeErr, redirectParses);
        return;
      }
      if clientId !in clients || clients[clientId].redirect != redirectUri {
        Answer(ctx, BadClient, now, random, storeErr, redirectParses);
        return;
      }
      var dataCookie := Sso.GetSSO(r);
      if dataCookie.None? {
        Answer(ctx, SignIn, now, random, storeErr, redirectParses);
        return;
      }
      var user := Dto.DecodeLoginResponse(dataCookie.value);
      if user.None? {
        Answer(ctx, Unparsable, now, random, storeErr, redirectParses);
        return;
      }
      Answer(ctx, Grant(user.value), now, random, storeErr, redirectParses);
    }

    /** Authorize with the session read from the store; `getFault` says that GET failed. */
    method AuthorizeCorrected(ctx: Http.Context, now: int, random: seq<byte>, getFault: bool,
                              storeErr: Option<string>, redirectParses: bool)
      requires |random| == 32
      modifies ctx, auth.kv
      ensures var step := AuthorizeCheckCorrected(clients, ctx.request, old(auth.kv.data), now, getFault);
        var reply := AuthorizeReply(step, ctx.request, random, now, storeErr.Some?, redirectParses);
        ctx.cookies == old(ctx.cookies) + (if reply.clearSso then [Sso.SsoCookie("", -1, cookieDomain)] else [])
        && ctx.responses == old(ctx.responses) + [reply.response]
        && auth.kv.data == StoreAfter(old(auth.kv.data), reply, now)
      ensures ctx.values == old(ctx.values) && ctx.headers == old(ctx.headers) && ctx.aborted == old(ctx.aborted)
    {
      var r := ctx.request;
      var clientId, redirectUri := Http.Query(r, "client_id"), Http.Query(r, "redirect_uri");
      if clientId == "" || redirectUri == "" || Http.Query(r, "response_type") != "code" {
        Answer(ctx, BadRequest, now, random, storeErr, redirectParses);
        return;
      }
      if clientId !in clients || clients[clientId].redirect != redirectUri {
        Answer(ctx, BadClient, now, random, storeErr, redirectParses);
        return;
      }
      var userId := Sso.GetSSO(r);
      if userId.None? {
        Answer(ctx, SignIn, now, random, storeErr, redirectParses);
        return;
      }
      var stored := auth.kv.Get(Sso.SessionKey(userId.value), now, getFault);
      if !stored.Hit? {
        Answer(ctx, SignIn, now, random, storeErr, redirectParses);
        return;
      }
      var user := Dto.DecodeLoginResponse(stored.s);
      if user.None? {
        Answer(ctx, Unparsable, now, random, storeErr, redirectParses);
        return;
      }
      Answer(ctx, Grant(user.value), now, random, storeErr, redirectParses);
    }

    /** Token: the client's checks, then the code's; the stored login response on success. The store is only read. */
    method Token(ctx: Http.Context, now: int, getFault: bool)
      modifies ctx
      ensures match TokenCheck(clients, checkSecret, ctx.request, auth.kv.data, now, getFault)
        case Refuse(status, message) =>
          ctx.responses == old(ctx.responses) + [Http.Error(status, message)] && ctx.aborted
        case Exchange(user) =>
          ctx.responses == old(ctx.responses) + [Http.Success(200, "Token generated successfully", Dto.LoginResponseJson(user))]
          && ctx.aborted == old(ctx.aborted)
      ensures ctx.values == old(ctx.values) && ctx.cookies == old(ctx.cookies) && ctx.headers == old(ctx.headers)
    {
      var r := ctx.request;
      var clientId, clientSecret := Http.PostForm(r, "client_id"), Http.PostForm(r, "client_secret");
      var redirectUri, code := Http.PostForm(r, "redirect_uri"), Http.PostForm(r, "code");
      if clientId == "" || clientSecret == "" || redirectUri == "" || code == "" {
        ctx.ErrorResponse(400, "Invalid request parameters");
        return;
      }
      if clientId !in clients {
        ctx.ErrorResponse(400, "Invalid client or client secret");
        return;
      }
      var client := clients[clientId];
      if client.redirect != redirectUri {
        ctx.ErrorResponse(400, "Invalid redirect URI");
        return;
      }
      if !checkSecret(client.secret, clientSecret) {
        ctx.ErrorResponse(401, "Invalid client");
        return;
      }
      var val := auth.kv.Get(code, now, getFault);
      if !val.Hit? {
        ctx.ErrorResponse(400, "Invalid authorization code");
        return;
      }
      var ac := Dto.DecodeCodeRecord(val.s);
      if ac.None? {
        ctx.ErrorResponse(500, "Failed to parse authorization code data");
        return;
      }
      if now > ac.value.expiresAt || ac.value.clientId != client.id {
        ctx.ErrorResponse(400, "Invalid grant");
        return;
      }
      if ac.value.redirectUri != redirectUri {
        ctx.ErrorResponse(400, "Invalid redirect URI");
        return;
      }
      if ac.value.code != code {
        ctx.ErrorResponse(400, "Invalid authorization code");
        return;
      }
      ctx.Respond(Http.Success(200, "Token generated successfully", Dto.LoginResponseJson(ac.value.userSub)));
    }

    /**
     * LoginPage: a browser that already sends a session cookie goes straight to return_to;
     * otherwise the form is shown with the CSRF token the middleware stored and the decoded error.
     */
    method LoginPage(ctx: Http.Context)
      modifies ctx
      ensures var r := ctx.request;
        var returnTo := Http.Query(r, "return_to");
        var token := if "csrf_token" in old(ctx.values) && old(ctx.values)["csrf_token"].Text? then old(ctx.values)["csrf_token"].s else "";
        ctx.responses == old(ctx.responses) + [
          if Sso.CookieName in r.cookies then Http.Redirect(303, Http.Raw(returnTo))
          else Http.LoginForm(200, returnTo, token, Global.LoginError(Http.Query(r, "error")))]
      ensures ctx.values == old(ctx.values) && ctx.cookies == old(ctx.cookies) && ctx.headers == old(ctx.headers)
      ensures ctx.aborted == old(ctx.aborted)
    {
      var r := ctx.request;
      var returnTo := Http.Query(r, "return_to");
      var token := if "csrf_token" in ctx.values && ctx.values["csrf_token"].Text? then ctx.values["csrf_token"].s else "";
      var errMsg := Global.LoginError(Http.Query(r, "error"));
      if Http.Cookie(r, Sso.CookieName).Some? {
        ctx.Respond(Http.Redirect(303, Http.Raw(returnTo)));
        return;
      }
      ctx.Respond(Http.LoginForm(200, returnTo, token, errMsg));
    }

    /** The form binds: e-mail and password are given and the e-mail passes the validator's rule. */
    predicate FormBinds(r: Http.Request) {
      Http.PostForm(r, "email") != "" && isEmail(Http.PostForm(r, "email")) && Http.PostForm(r, "password") != ""
    }

    /**
     * LoginPost: the form, then the CSRF token, then the credentials; only then the SSO
     * session is kept for the JWT's lifetime and the browser sent to return_to. The
     * parameters are the faults and the random octets of the calls it makes.
     */
    method LoginPost(ctx: Http.Context, now: int, sremFault: bool, expireFault: bool, random: Result<seq<byte>>,
                     storeErr: Option<string>, mailErr: Option<string>, ssoFault: bool)
      requires random.Ok? ==> |random.value| == 32
      modifies ctx, auth.kv, auth.mailer
      ensures var r := ctx.request;
        var returnTo, email := Http.PostForm(r, "return_to"), Http.PostForm(r, "email");
        var u := UR.ByEmail(auth.users.rows, email);
        if !FormBinds(r) || !Csrf.Accepts(r, old(auth.kv.data), now, sremFault) then
          ctx.responses == old(ctx.responses) + [Http.Redirect(302, Http.Url(LoginPath, Global.LoginQuery(returnTo,
                             if !FormBinds(r) then "Invalid form data" else "Invalid CSRF token")))]
          && ctx.cookies == old(ctx.cookies) && ctx.headers == old(ctx.headers)
          && auth.kv.data == old(auth.kv.data) && auth.mailer.sent == old(auth.mailer.sent)
        else SignedIn(r, returnTo, u, now, random, storeErr, mailErr, ssoFault,
                      Effects(Csrf.Redeemed(r, old(auth.kv.data), now, expireFault), old(ctx.responses), old(ctx.cookies),
                              old(ctx.headers), old(auth.mailer.sent)),
                      Effects(auth.kv.data, ctx.responses, ctx.cookies, ctx.headers, auth.mailer.sent))
      ensures ctx.values == old(ctx.values) && ctx.aborted == old(ctx.aborted)
    {
      var r := ctx.request;
      var returnTo := Http.PostForm(r, "return_to");
      if !FormBinds(r) {
        Global.RedirectBackToLogin(ctx, LoginPath, returnTo, "Invalid form data");
        return;
      }
      var ok := Csrf.ValidateCSRF(ctx, auth.kv, now, sremFault, expireFault);
      if !ok {
        Global.RedirectBackToLogin(ctx, LoginPath, returnTo, "Invalid CSRF token");
        return;
      }
      LoginChecked(ctx, returnTo, now, random, storeErr, mailErr, ssoFault);
    }

    /**
     * What a form past its CSRF check leads to, from the effects `e` before these steps to the
     * effects `e'` after them: the redirect back with the login error, or the redirect to
     * return_to with the SSO session kept for the JWT's lifetime. A failed login stores
     * nothing and an unverified address gets a new verification link; only a signed-in
     * user's session is written.
     */
    ghost predicate SignedIn(r: Http.Request, returnTo: string, u: Option<User>, now: int,
                             random: Result<seq<byte>>, storeErr: Option<string>, mailErr: Option<string>, ssoFault: bool,
                             e: Effects, e': Effects)
    {
      if u.None? || !auth.checkPassword(u.value.password, Http.PostForm(r, "password")) then
        e'.responses == e.responses + [Http.Redirect(302, Http.Url(LoginPath, Global.LoginQuery(returnTo,
                          "Login failed: " + AUC.WrongCredentials)))]
        && e'.cookies == e.cookies && e'.headers == e.headers && e'.db == e.db && e'.sent == e.sent
      else if u.value.emailVerifiedAt.None? then
        e'.responses == e.responses + [Http.Redirect(302, Http.Url(LoginPath, Global.LoginQuery(returnTo,
                          "Login failed: " + AUC.UnverifiedEmail)))]
        && e'.cookies == e.cookies && e'.headers == e.headers
        && AUC.VerificationRequested(u.value, now, random, storeErr, mailErr, e.db, e.sent, e'.db, e'.sent)
      else
        e'.responses == e.responses + [Http.Redirect(303, Http.Raw(returnTo))]
        && e'.headers == e.headers + [("Cache-Control", "no-store"), ("Pragma", "no-cache")]
        && e'.cookies == e.cookies + [Sso.SsoCookie(Sso.CookieValue(u.value.id), auth.jwtHours * 3600, cookieDomain)]
        && e'.sent == e.sent
        && exists s :: (auth.IssuedFor(s, u.value, now)
             && e'.db == if ssoFault then e.db
                         else Kv.SetSpec(e.db, Sso.SessionKey(u.value.id), Dto.EncodeLoginResponse(s), auth.jwtHours * 3600, now))
    }

    /** LoginPost after the CSRF check: the credentials, then the session. */
    method LoginChecked(ctx: Http.Context, returnTo: string, now: int, random: Result<seq<byte>>,
                        storeErr: Option<string>, mailErr: Option<string>, ssoFault: bool)
      requires random.Ok? ==> |random.value| == 32
      modifies ctx, auth.kv, auth.mailer
      ensures SignedIn(ctx.request, returnTo, UR.ByEmail(auth.users.rows, Http.PostForm(ctx.request, "email")), now,
                       random, storeErr, mailErr, ssoFault,
                       Effects(old(auth.kv.data), old(ctx.responses), old(ctx.cookies), old(ctx.headers), old(auth.mailer.sent)),
                       Effects(auth.kv.data, ctx.responses, ctx.cookies, ctx.headers, auth.mailer.sent))
      ensures ctx.values == old(ctx.values) && ctx.aborted == old(ctx.aborted)
    {
      var r := ctx.request;
      var user := auth.Login(Http.PostForm(r, "email"), Http.PostForm(r, "password"), now, random, storeErr, mailErr);
      if user.Err? {
        Global.RedirectBackToLogin(ctx, LoginPath, returnTo, "Login failed: " + user.error);
        return;
      }
      KeepSession(ctx, returnTo, user.value, now, ssoFault);
    }

    /** LoginPost's last steps: no caching, the SSO session for the JWT's lifetime, and the redirect to return_to. */
    method KeepSession(ctx: Http.Context, returnTo: string, sub: Dto.LoginResponse, now: int, ssoFault: bool)
      modifies ctx, auth.kv
      ensures ctx.responses == old(ctx.responses) + [Http.Redirect(303, Http.Raw(returnTo))]
      ensures ctx.headers == old(ctx.headers) + [("Cache-Control", "no-store"), ("Pragma", "no-cache")]
      ensures ctx.cookies == old(ctx.cookies) + [Sso.SsoCookie(Sso.CookieValue(sub.user.id), auth.jwtHours * 3600, cookieDomain)]
      ensures auth.kv.data == if ssoFault then old(auth.kv.data)
                              else Kv.SetSpec(old(auth.kv.data), Sso.SessionKey(sub.user.id), Dto.EncodeLoginResponse(sub),
                                              auth.jwtHours * 3600, now)
      ensures !ssoFault ==> Kv.GetSpec(auth.kv.data, Sso.SessionKey(sub.user.id), now) == Kv.Hit(Dto.EncodeLoginResponse(sub))
      ensures ctx.values == old(ctx.values) && ctx.aborted == old(ctx.aborted)
    {
      ctx.AddHeader("Cache-Control", "no-store");
      ctx.AddHeader("Pragma", "no-cache");
      ghost var before := auth.kv.data;
      var ttl := auth.jwtHours * 3600;
      Sso.SetSSO(ctx, auth.kv, sub, ttl, cookieDomain, now, ssoFault);
      if !ssoFault {
        Kv.SetThenGet(before, Sso.SessionKey(sub.user.id), Dto.EncodeLoginResponse(sub), ttl, now, now);
      }
      ctx.Respond(Http.Redirect(303, Http.Raw(returnTo)));
    }

    /** Logout: clear the session cookie and go where `redirect` says. The stored session stays. */
    method Logout(ctx: Http.Context)
      modifies ctx
      ensures ctx.cookies == old(ctx.cookies) + [Sso.SsoCookie("", -1, cookieDomain)]
      ensures ctx.responses == old(ctx.responses) + [Http.Redirect(303, Http.Raw(Http.Query(ctx.request, "redirect")))]
      ensures ctx.values == old(ctx.values) && ctx.headers == old(ctx.headers) && ctx.aborted == old(ctx.aborted)
    {
      Sso.ClearSSO(ctx, cookieDomain);
      ctx.Respond(Http.Redirect(303, Http.Raw(Http.Query(ctx.request, "redirect"))));
    }
  }

  // ---------------------------------------------------------------------------
  // Properties of Authorize

  /** No code is minted unless the parameters are right, the redirect URI is registered and there is a session. */
  lemma CodeOnlyAfterChecks(clients: map<string, OauthClient>, r: Http.Request, db: Kv.Db, now: int, getFault: bool,
                            random: seq<byte>, storeFault: bool, redirectParses: bool)
    requires |random| == 32
    ensures var clientId, redirectUri := Http.Query(r, "client_id"), Http.Query(r, "redirect_uri");
      forall step :: step == AuthorizeCheck(clients, r) || step == AuthorizeCheckCorrected(clients, r, db, now, getFault) ==>
        (AuthorizeReply(step, r, random, now, storeFault, redirectParses).stored.Some? ==>
          ParamsOk(r) && Registered(clients, clientId, redirectUri) && Sso.GetSSO(r).Some?
          && AuthorizeReply(step, r, random, now, storeFault, redirectParses).stored
             == Some(OUC.NewCodeRecord(random, clientId, redirectUri, step.user, now)))
  {
    GrantOnlyPastGate(clients, r, db, now, getFault);
    forall step | step == AuthorizeCheck(clients, r) || step == AuthorizeCheckCorrected(clients, r, db, now, getFault) {
      StoredOnlyOnGrant(step, r, random, now, storeFault, redirectParses);
    }
  }

  lemma StoredOnlyOnGrant(step: AuthorizeStep, r: Http.Request, random: seq<byte>, now: int, storeFault: bool, redirectParses: bool)
    requires |random| == 32
    ensures var reply := AuthorizeReply(step, r, random, now, storeFault, redirectParses);
      reply.stored.Some? ==>
        (step.Grant?
         && reply.stored == Some(OUC.NewCodeRecord(random, Http.Query(r, "client_id"), Http.Query(r, "redirect_uri"), step.user, now)))
  {
  }

  lemma GrantOnlyPastGate(clients: map<string, OauthClient>, r: Http.Request, db: Kv.Db, now: int, getFault: bool)
    ensures AuthorizeCheck(clients, r).Grant? || AuthorizeCheckCorrected(clients, r, db, now, getFault).Grant? ==>
      Gate(clients, r).None? && ParamsOk(r)
      && Registered(clients, Http.Query(r, "client_id"), Http.Query(r, "redirect_uri")) && Sso.GetSSO(r).Some?
  {
  }

  /** Without a session cookie the browser is sent to the login page, returning to this request. */
  lemma NoSessionSignsIn(clients: map<string, OauthClient>, r: Http.Request, random: seq<byte>, now: int,
                         storeFault: bool, redirectParses: bool)
    requires |random| == 32
    requires ParamsOk(r) && Registered(clients, Http.Query(r, "client_id"), Http.Query(r, "redirect_uri"))
    requires Sso.CookieName !in r.cookies
    ensures var reply := AuthorizeReply(AuthorizeCheck(clients, r), r, random, now, storeFault, redirectParses);
      reply.stored.None? && !reply.clearSso
      && reply.response.Redirect? && reply.response.status == 303 && reply.response.location.Url?
      && reply.response.location.path == LoginPath
      && Http.QueryValue(reply.response.location.query, "return_to") == r.requestUri
  {
  }

  /**
   * As written, a browser signed in by SetSSO with a user id of hexadecimal digits and
   * dashes (a UUID) never gets a code: the cookie's value is the bare id, which is no JSON
   * object, so the parse fails and the session cookie is cleared.
   */
  lemma SignedInCookieNotParsed(clients: map<string, OauthClient>, r: Http.Request, jar: map<string, string>,
                                id: string, maxAge: int, domain: string)
    requires ParamsOk(r) && Registered(clients, Http.Query(r, "client_id"), Http.Query(r, "redirect_uri"))
    requires id != "" && forall i :: 0 <= i < |id| ==> Json.IsHexOrDash(id[i])
    requires maxAge >= 0
    requires r.cookies == Http.StoreCookie(jar, Sso.SsoCookie(Sso.CookieValue(id), maxAge, domain))
    ensures AuthorizeCheck(clients, r) == Unparsable
  {
    assert IsByteString(id) by {
      forall i | 0 <= i < |id| ensures id[i] as int < 256 {
        assert Json.IsHexOrDash(id[i]);
      }
    }
    Sso.GetAfterSet(r, jar, id, maxAge, domain);
    Dto.HexStringIsNoLoginResponse(id);
  }

  /**
   * Corrected, the same browser gets a code for the login response SetSSO stored, while
   * the stored session lasts.
   */
  lemma SignedInSessionGranted(clients: map<string, OauthClient>, r: Http.Request, jar: map<string, string>,
                               db: Kv.Db, sub: Dto.LoginResponse, maxAge: int, domain: string, setAt: int, now: int)
    requires ParamsOk(r) && Registered(clients, Http.Query(r, "client_id"), Http.Query(r, "redirect_uri"))
    requires sub.user.id != "" && IsByteString(sub.user.id)
    requires maxAge >= 0 && (maxAge == 0 || now < setAt + maxAge)
    requires r.cookies == Http.StoreCookie(jar, Sso.SsoCookie(Sso.CookieValue(sub.user.id), maxAge, domain))
    ensures var stored := Kv.SetSpec(db, Sso.SessionKey(sub.user.id), Dto.EncodeLoginResponse(sub), maxAge, setAt);
      AuthorizeCheckCorrected(clients, r, stored, now, false) == Grant(sub)
  {
    Sso.GetAfterSet(r, jar, sub.user.id, maxAge, domain);
    Kv.SetThenGet(db, Sso.SessionKey(sub.user.id), Dto.EncodeLoginResponse(sub), maxAge, setAt, now);
    Dto.LoginResponseRoundTrip(sub);
  }

  // ---------------------------------------------------------------------------
  // Properties of Token

  /** The client is checked before the code: a client refused is refused whatever the store holds. */
  lemma ClientChecksFirst(clients: map<string, OauthClient>, checkSecret: (string, string) -> bool, r: Http.Request,
                          db1: Kv.Db, now1: int, fault1: bool, db2: Kv.Db, now2: int, fault2: bool)
    requires ClientCheck(clients, checkSecret, r).Some?
    ensures TokenCheck(clients, checkSecret, r, db1, now1, fault1) == TokenCheck(clients, checkSecret, r, db2, now2, fault2)
    ensures TokenCheck(clients, checkSecret, r, db1, now1, fault1).Refuse?
  {
  }

  /** A token request that presents a code minted for `rec` with the same client, secret and redirect URI. */
  predicate Presents(clients: map<string, OauthClient>, checkSecret: (string, string) -> bool, r: Http.Request,
                     rec: Dto.CodeRecord)
  {
    var secret := Http.PostForm(r, "client_secret");
    Http.PostForm(r, "client_id") == rec.clientId && Http.PostForm(r, "redirect_uri") == rec.redirectUri
    && Http.PostForm(r, "code") == rec.code && secret != ""
    && rec.clientId in clients && clients[rec.clientId].id == rec.clientId
    && clients[rec.clientId].redirect == rec.redirectUri && checkSecret(clients[rec.clientId].secret, secret)
  }

  /**
   * The code Authorize minted is exchanged for the login response it was minted for, at any
   * time before its ten minutes are up.
   */
  lemma IssuedCodeExchanged(clients: map<string, OauthClient>, checkSecret: (string, string) -> bool, r: Http.Request,
                            db: Kv.Db, random: seq<byte>, user: Dto.LoginResponse, now: int, t: int)
    requires |random| == 32
    requires var rec := OUC.NewCodeRecord(random, Http.PostForm(r, "client_id"), Http.PostForm(r, "redirect_uri"), user, now);
      Presents(clients, checkSecret, r, rec) && rec.clientId != "" && rec.redirectUri != ""
    requires t < now + OUC.CodeLifetime
    ensures var rec := OUC.NewCodeRecord(random, Http.PostForm(r, "client_id"), Http.PostForm(r, "redirect_uri"), user, now);
      var stored := Kv.SetSpec(db, rec.code, Dto.EncodeCodeRecord(rec), OUC.CodeLifetime, now);
      TokenCheck(clients, checkSecret, r, stored, t, false) == Exchange(user)
  {
    var rec := OUC.NewCodeRecord(random, Http.PostForm(r, "client_id"), Http.PostForm(r, "redirect_uri"), user, now);
    OUC.StoredCodeReadsBack(db, rec, now, t);
  }

  /**
   * Token only reads the store, so the same code is exchanged again and again until it
   * lapses: section 4.1.2 of RFC 6749 allows one use only.
   */
  lemma CodeReplayable(clients: map<string, OauthClient>, checkSecret: (string, string) -> bool, r: Http.Request,
                       db: Kv.Db, random: seq<byte>, user: Dto.LoginResponse, now: int, first: int, second: int)
    requires |random| == 32
    requires var rec := OUC.NewCodeRecord(random, Http.PostForm(r, "client_id"), Http.PostForm(r, "redirect_uri"), user, now);
      Presents(clients, checkSecret, r, rec) && rec.clientId != "" && rec.redirectUri != ""
    requires first < second < now + OUC.CodeLifetime
    ensures var rec := OUC.NewCodeRecord(random, Http.PostForm(r, "client_id"), Http.PostForm(r, "redirect_uri"), user, now);
      var stored := Kv.SetSpec(db, rec.code, Dto.EncodeCodeRecord(rec), OUC.CodeLifetime, now);
      TokenCheck(clients, checkSecret, r, stored, first, false) == Exchange(user)
      && TokenCheck(clients, checkSecret, r, stored, second, false) == Exchange(user)
  {
    IssuedCodeExchanged(clients, checkSecret, r, db, random, user, now, first);
    IssuedCodeExchanged(clients, checkSecret, r, db, random, user, now, second);
  }

  /** Once its ten minutes are up the code is gone from the store and refused. */
  lemma LapsedCodeRefused(clients: map<string, OauthClient>, checkSecret: (string, string) -> bool, r: Http.Request,
                          db: Kv.Db, rec: Dto.CodeRecord, now: int, t: int)
    requires ClientCheck(clients, checkSecret, r).None? && Http.PostForm(r, "code") == rec.code
    requires t >= now + OUC.CodeLifetime
    ensures var stored := Kv.SetSpec(db, rec.code, Dto.EncodeCodeRecord(rec), OUC.CodeLifetime, now);
      TokenCheck(clients, checkSecret, r, stored, t, false) == Refuse(400, "Invalid authorization code")
  {
    OUC.StoredCodeReadsBack(db, rec, now, t);
  }

  /** A code minted for one client is refused to another, whatever that client's own credentials. */
  lemma OtherClientRefused(clients: map<string, OauthClient>, checkSecret: (string, string) -> bool, r: Http.Request,
                           db: Kv.Db, rec: Dto.CodeRecord, now: int, t: int)
    requires ClientCheck(clients, checkSecret, r).None? && Http.PostForm(r, "code") == rec.code
    requires clients[Http.PostForm(r, "client_id")].id != rec.clientId
    requires t < now + OUC.CodeLifetime
    ensures var stored := Kv.SetSpec(db, rec.code, Dto.EncodeCodeRecord(rec), OUC.CodeLifetime, now);
      TokenCheck(clients, checkSecret, r, stored, t, false) == Refuse(400, "Invalid grant")
  {
    OUC.StoredCodeReadsBack(db, rec, now, t);
  }
}
