/**
 * CSRF protection of the login form: every page view adds a fresh single-use token to the
 * set stored under "csrf:sess:<sid>", where <sid> is the browser's csrf_sid cookie; posting
 * the form redeems the token by removing it from the set.
 */
module Csrf {
  import opened Base
  import B64 = Base64Url
  import Global
  import Http
  import Kv

  /** Thirty minutes, the lifetime of the session cookie and of the stored token set. */
  const SessionTtl := 1800

  function SetKey(sid: string): string {
    "csrf:sess:" + sid
  }

  /** The CSRF session id the browser sent: None when the cookie is missing or empty. */
  function SessionId(r: Http.Request): Option<string> {
    match Http.Cookie(r, Global.CsrfIdToken)
    case Some(sid) => if sid == "" then None else Some(sid)
    case None => None
  }

  /** A token the session can still redeem. */
  predicate Redeemable(db: Kv.Db, sid: string, token: string, now: int) {
    Kv.Holds(db, SetKey(sid), token, now)
  }

  // ---------------------------------------------------------------------------
  // helper.CSRFToken and helper.ValidateCSRF

  /** Whether ValidateCSRF takes the posted token: both it and the session id are sent and the set still holds it. */
  predicate Accepts(r: Http.Request, db: Kv.Db, now: int, sremFault: bool) {
    var token, sid := Http.PostForm(r, "csrf_token"), SessionId(r);
    token != "" && sid.Some? && !sremFault && Redeemable(db, sid.value, token, now)
  }

  /**
   * The store a successful ValidateCSRF leaves: the posted token removed from the session's
   * set, whose deadline is then moved thirty minutes on unless EXPIRE failed.
   */
  function Redeemed(r: Http.Request, db: Kv.Db, now: int, expireFault: bool): Kv.Db {
    match SessionId(r)
    case None => db
    case Some(sid) =>
      match Kv.SRemSpec(db, SetKey(sid), Http.PostForm(r, "csrf_token"), now)
      case None => db
      case Some((removed, _)) =>
        if expireFault then removed else Kv.ExpireSpec(removed, SetKey(sid), SessionTtl, now).0
  }

  /**
   * A new token from 32 random octets; None when the random source failed. The session id
   * plays no part in the token.
   */
  function CsrfToken(random: Option<seq<byte>>): (t: Option<string>)
    requires random.Some? ==> |random.value| == 32
    ensures t.Some? <==> random.Some?
    ensures t.Some? ==> |t.value| == 43 && B64.Decode(t.value) == random
  {
    match random
    case None => None
    case Some(b) => Some(Global.GenCode(b))
  }

  /**
   * Redeem the posted csrf_token: true exactly when it and the session id are present and
   * SREM removed it from the session's set; then the set's deadline is pushed to thirty
   * minutes from now, ignoring a failure. Nothing changes when the token is refused.
   * RedeemKeepsOtherTokens states what the new set holds and until when.
   */
  method ValidateCSRF(ctx: Http.Context, kv: Kv.Store, now: int, sremFault: bool, expireFault: bool) returns (ok: bool)
    modifies kv
    ensures ok <==> Accepts(ctx.request, old(kv.data), now, sremFault)
    ensures !ok ==> kv.data == old(kv.data)
    ensures ok ==> var sid := SessionId(ctx.request).value;
      !Redeemable(kv.data, sid, Http.PostForm(ctx.request, "csrf_token"), now)
      && kv.data - {SetKey(sid)} == old(kv.data) - {SetKey(sid)}
    ensures ok ==> kv.data == Redeemed(ctx.request, old(kv.data), now, expireFault)
  {
    var token := Http.PostForm(ctx.request, "csrf_token");
    if token == "" {
      return false;
    }
    var sid := SessionId(ctx.request);
    if sid.None? {
      return false;
    }
    var key := SetKey(sid.value);
    var removed := kv.SRem(key, token, now, sremFault);
    if removed.None? {
      return false;
    }
    if removed.value != 1 {
      Kv.RemoveAbsent(old(kv.data), key, token, now);
      return false;
    }
    ghost var afterRem := kv.data;
    var _ := kv.Expire(key, SessionTtl, now, expireFault);
    if !expireFault && Kv.Visible(afterRem, key, now).Some? {
      Kv.ExpireMovesDeadline(afterRem, key, SessionTtl, now, now);
    }
    ok := true;
  }

  // ---------------------------------------------------------------------------
  // middleware.CSRFTokenMiddleware

  /** The cookie that gives a browser a new CSRF session id. */
  function SidCookie(sid: string): Http.SetCookie {
    Http.SetCookie(Global.CsrfIdToken, sid, SessionTtl, "/", "", true, true)
  }

  /** The session the request belongs to: the browser's, else the freshly generated id. */
  function SessionOf(r: Http.Request, freshSid: string): string {
    match SessionId(r)
    case Some(sid) => sid
    case None => freshSid
  }

  /**
   * Issue a token for the login form: reuse or create the CSRF session, add a new token to
   * its set and give the set thirty more minutes; any failure ends the request with a 500.
   * `freshSid` is the UUID generated for a browser without a session, `random` the 32 octets
   * read for the token (None when reading failed).
   */
  method CSRFTokenMiddleware(ctx: Http.Context, kv: Kv.Store, freshSid: string, random: Option<seq<byte>>,
                             now: int, saddFault: bool, expireFault: bool)
    requires random.Some? ==> |random.value| == 32
    requires !ctx.aborted
    modifies ctx, kv
    ensures ctx.cookies == old(ctx.cookies) + (if SessionId(ctx.request).Some? then [] else [SidCookie(freshSid)])
    ensures ctx.headers == old(ctx.headers)
    ensures random.None? ==>
      ctx.aborted && ctx.responses == old(ctx.responses) + [Http.Error(500, "Failed to generate CSRF token")]
      && kv.data == old(kv.data) && ctx.values == old(ctx.values)
    ensures random.Some? ==>
      var sid, token := SessionOf(ctx.request, freshSid), CsrfToken(random).value;
      var added := Kv.SAddSpec(old(kv.data), SetKey(sid), token, now);
      (saddFault || added.None? ==>
        ctx.aborted && ctx.responses == old(ctx.responses) + [Http.Error(500, "Failed to store CSRF token")]
        && kv.data == old(kv.data) && ctx.values == old(ctx.values))
      && (!saddFault && added.Some? && expireFault ==>
        ctx.aborted && ctx.responses == old(ctx.responses) + [Http.Error(500, "Failed to set CSRF token expiry")]
        && kv.data == added.value.0 && ctx.values == old(ctx.values))
      && (!saddFault && added.Some? && !expireFault ==>
        !ctx.aborted && ctx.responses == old(ctx.responses)
        && kv.data == Kv.ExpireSpec(added.value.0, SetKey(sid), SessionTtl, now).0
        && ctx.values == old(ctx.values)["csrf_token" := Http.Text(token)])
  {
    var sid: string;
    match SessionId(ctx.request) {
      case Some(s) =>
        sid := s;
      case None =>
        sid := freshSid;
        ctx.AddCookie(SidCookie(sid));
    }
    var token := CsrfToken(random);
    if token.None? {
      ctx.ErrorResponse(500, "Failed to generate CSRF token");
      return;
    }
    var key := SetKey(sid);
    var stored := kv.SAdd(key, token.value, now, saddFault);
    if !stored {
      ctx.ErrorResponse(500, "Failed to store CSRF token");
      return;
    }
    var expired := kv.Expire(key, SessionTtl, now, expireFault);
    if expired.None? {
      ctx.ErrorResponse(500, "Failed to set CSRF token expiry");
      return;
    }
    ctx.Set("csrf_token", Http.Text(token.value));
  }

  // ---------------------------------------------------------------------------
  // Properties

  /**
   * A token the middleware stored can be redeemed once within the next thirty minutes, and
   * then no more: the first SREM removes it, a second removes nothing.
   */
  lemma IssueThenRedeemOnce(db: Kv.Db, sid: string, token: string, now: int, later: int)
    requires Kv.SAddSpec(db, SetKey(sid), token, now).Some?
    requires now <= later < now + SessionTtl
    ensures var d1 := Kv.ExpireSpec(Kv.SAddSpec(db, SetKey(sid), token, now).value.0, SetKey(sid), SessionTtl, now).0;
      Redeemable(d1, sid, token, later)
      && Kv.SRemSpec(d1, SetKey(sid), token, later).Some?
      && Kv.SRemSpec(d1, SetKey(sid), token, later).value.1 == 1
      && var d2 := Kv.SRemSpec(d1, SetKey(sid), token, later).value.0;
         !Redeemable(d2, sid, token, later)
         && Kv.SRemSpec(d2, SetKey(sid), token, later) == Some((d2, 0))
  {
    var key := SetKey(sid);
    var d0 := Kv.SAddSpec(db, key, token, now).value.0;
    Kv.ExpireMovesDeadline(d0, key, SessionTtl, now, later);
    var d1 := Kv.ExpireSpec(d0, key, SessionTtl, now).0;
    var d2 := Kv.SRemSpec(d1, key, token, later).value.0;
    Kv.RemoveAbsent(d2, key, token, later);
  }

  /**
   * Redeeming one token keeps every other token of the session: each one redeemable before
   * stays redeemable for the thirty minutes the refreshed deadline allows, and no token is
   * added.
   */
  lemma RedeemKeepsOtherTokens(db: Kv.Db, sid: string, token: string, t: string, now: int, later: int)
    requires t != token
    requires Kv.SRemSpec(db, SetKey(sid), token, now).Some?
    requires now <= later
    ensures var d1 := Kv.ExpireSpec(Kv.SRemSpec(db, SetKey(sid), token, now).value.0, SetKey(sid), SessionTtl, now).0;
      Redeemable(d1, sid, t, later) <==> Redeemable(db, sid, t, now) && later < now + SessionTtl
  {
    var key := SetKey(sid);
    var d0 := Kv.SRemSpec(db, key, token, now).value.0;
    if Kv.Visible(d0, key, now).Some? {
      Kv.ExpireMovesDeadline(d0, key, SessionTtl, now, later);
      assert Kv.Visible(db, key, now).Some?;
      assert Kv.Visible(d0, key, now).value.m == Kv.Visible(db, key, now).value.m - {token};
    }
  }

  /** The stored tokens lapse with the set: thirty minutes after the last issue none is redeemable. */
  lemma TokensLapse(db: Kv.Db, sid: string, token: string, other: string, now: int, later: int)
    requires Kv.SAddSpec(db, SetKey(sid), token, now).Some?
    requires later >= now + SessionTtl
    ensures var d1 := Kv.ExpireSpec(Kv.SAddSpec(db, SetKey(sid), token, now).value.0, SetKey(sid), SessionTtl, now).0;
      !Redeemable(d1, sid, other, later)
  {
    var key := SetKey(sid);
    var d0 := Kv.SAddSpec(db, key, token, now).value.0;
    Kv.ExpireMovesDeadline(d0, key, SessionTtl, now, later);
  }

  /** Sessions are isolated: issuing or redeeming a token of one session leaves every other session's tokens as they were. */
  lemma SessionsIsolated(db: Kv.Db, sid: string, other: string, token: string, t: string, now: int, later: int)
    requires sid != other
    ensures Kv.SAddSpec(db, SetKey(sid), token, now).Some? ==>
      var d0 := Kv.SAddSpec(db, SetKey(sid), token, now).value.0;
      Redeemable(d0, other, t, later) == Redeemable(db, other, t, later)
      && Redeemable(Kv.ExpireSpec(d0, SetKey(sid), SessionTtl, now).0, other, t, later) == Redeemable(db, other, t, later)
    ensures Kv.SRemSpec(db, SetKey(sid), token, now).Some? ==>
      Redeemable(Kv.SRemSpec(db, SetKey(sid), token, now).value.0, other, t, later) == Redeemable(db, other, t, later)
  {
    assert SetKey(sid) != SetKey(other) by {
      assert SetKey(sid)[10..] == sid && SetKey(other)[10..] == other;
    }
    Kv.SetCommandsOtherKey(db, SetKey(sid), SetKey(other), token, now, later);
  }
}
