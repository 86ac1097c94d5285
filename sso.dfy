/**
 * The single-sign-on session: the login response is kept in the store under "sso:<user id>"
 * and the browser holds the user id, base64url-encoded, in the sso_session cookie.
 */
module Sso {
  import opened Base
  import B64 = Base64Url
  import Dto
  import Http
  import Kv

  const CookieName := "sso_session"

  function SessionKey(userId: string): string {
    "sso:" + userId
  }

  /** The cookie's value: the user id's octets in unpadded base64url. */
  function CookieValue(userId: string): string {
    B64.Encode(Octets(userId))
  }

  /** The cookie SetSSO writes, and (value "" and MaxAge -1) the one ClearSSO writes. */
  function SsoCookie(value: string, maxAge: int, domain: string): Http.SetCookie {
    Http.SetCookie(CookieName, value, maxAge, "/", domain, true, true)
  }

  /**
   * helper.SetSSO: store the encoded login response for `maxAge` seconds (a failed write is
   * ignored) and set the session cookie for the same time. `domain` is the configured cookie domain.
   */
  method SetSSO(ctx: Http.Context, kv: Kv.Store, sub: Dto.LoginResponse, maxAge: int, domain: string, now: int, fault: bool)
    modifies ctx, kv
    ensures kv.data == if fault then old(kv.data)
                       else Kv.SetSpec(old(kv.data), SessionKey(sub.user.id), Dto.EncodeLoginResponse(sub), maxAge, now)
    ensures ctx.cookies == old(ctx.cookies) + [SsoCookie(CookieValue(sub.user.id), maxAge, domain)]
    ensures ctx.values == old(ctx.values) && ctx.headers == old(ctx.headers)
    ensures ctx.responses == old(ctx.responses) && ctx.aborted == old(ctx.aborted)
  {
    var _ := kv.Set(SessionKey(sub.user.id), Dto.EncodeLoginResponse(sub), maxAge, now, fault);
    ctx.AddCookie(SsoCookie(CookieValue(sub.user.id), maxAge, domain));
  }

  /** helper.GetSSO: the user id from the cookie; None when it is missing, empty or not base64url. */
  function GetSSO(r: Http.Request): (id: Option<string>)
    ensures CookieName !in r.cookies || r.cookies[CookieName] == "" ==> id.None?
    ensures id.Some? ==> IsByteString(id.value) && Http.Cookie(r, CookieName).Some?
                         && B64.Decode(Http.Cookie(r, CookieName).value) == Some(Octets(id.value))
  {
    match Http.Cookie(r, CookieName)
    case None => None
    case Some(v) =>
      if v == "" then None
      else match B64.Decode(v)
        case None => None
        case Some(b) => OctetsRoundTripBack(b); Some(FromOctets(b))
  }

  lemma OctetsRoundTripBack(b: seq<byte>)
    ensures Octets(FromOctets(b)) == b
  {
    var s := FromOctets(b);
    assert |Octets(s)| == |b|;
    forall i | 0 <= i < |b| ensures Octets(s)[i] == b[i] {
      assert s[i] as int == b[i] as int;
    }
  }

  /** helper.ClearSSO: overwrite the session cookie with an expired empty one. The stored session stays. */
  method ClearSSO(ctx: Http.Context, domain: string)
    modifies ctx
    ensures ctx.cookies == old(ctx.cookies) + [SsoCookie("", -1, domain)]
    ensures ctx.values == old(ctx.values) && ctx.headers == old(ctx.headers)
    ensures ctx.responses == old(ctx.responses) && ctx.aborted == old(ctx.aborted)
  {
    ctx.AddCookie(SsoCookie("", -1, domain));
  }

  /** The cookie SetSSO writes gives back the user id on the next request, for any non-empty id of bytes. */
  lemma GetAfterSet(r: Http.Request, jar: map<string, string>, id: string, maxAge: int, domain: string)
    requires IsByteString(id) && id != ""
    requires maxAge >= 0
    requires r.cookies == Http.StoreCookie(jar, SsoCookie(CookieValue(id), maxAge, domain))
    ensures GetSSO(r) == Some(id)
  {
    B64.RoundTrip(Octets(id));
    OctetsRoundTrip(id);
    var v := CookieValue(id);
    assert |v| == B64.EncodedLen(|id|);
    forall i | 0 <= i < |v| ensures v[i] != '%' && v[i] != '+' {
      assert B64.IsAlphabetChar(v[i]);
    }
    Http.UnescapePlain(v);
  }

  /** After ClearSSO the browser sends no session cookie, so the next request has no session. */
  lemma GetAfterClear(r: Http.Request, jar: map<string, string>, domain: string)
    requires r.cookies == Http.StoreCookie(jar, SsoCookie("", -1, domain))
    ensures GetSSO(r).None?
  {
  }
}
