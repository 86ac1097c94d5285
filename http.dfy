/**
 * The part of a gin request context the gateway reads and writes: the incoming request's
 * query, form, cookies and headers, and the outgoing cookies, headers, responses, context
 * values and the abort flag. The handler chain goes on to the next handler unless the
 * context has been aborted.
 */
module Http {
  import opened Base
  import Json

  /** The incoming request. Absent query and form fields read as "". */
  datatype Request = Request(
    verb: string,
    fullPath: string,
    requestUri: string,
    clientIp: string,
    headers: map<string, string>,
    query: map<string, string>,
    form: map<string, string>,
    cookies: map<string, string>)

  function Query(r: Request, key: string): string {
    if key in r.query then r.query[key] else ""
  }

  /** c.DefaultQuery: the default only when the parameter is absent, not when it is empty. */
  function DefaultQuery(r: Request, key: string, default: string): string {
    if key in r.query then r.query[key] else default
  }

  function PostForm(r: Request, key: string): string {
    if key in r.form then r.form[key] else ""
  }

  function Header(r: Request, key: string): string {
    if key in r.headers then r.headers[key] else ""
  }

  /** Every '%' starts an escape: two hex digits follow it. */
  predicate WellEscaped(s: string) {
    forall i :: 0 <= i < |s| && s[i] == '%' ==>
      i + 2 < |s| && Json.HexValue(s[i + 1]).Some? && Json.HexValue(s[i + 2]).Some?
  }

  /**
   * url.QueryUnescape: "%XX" is the octet XX, '+' is a space, anything else stays; it fails
   * unless every '%' starts an escape.
   */
  function QueryUnescape(s: string): (r: Option<string>)
    ensures r.Some? <==> WellEscaped(s)
    ensures r.Some? ==> |r.value| <= |s|
    decreases |s|
  {
    if s == [] then Some([])
    else if s[0] == '%' then
      if |s| >= 3 && Json.HexValue(s[1]).Some? && Json.HexValue(s[2]).Some? then
        match QueryUnescape(s[3..])
        case None => assert !WellEscaped(s[3..]); Unescaped3(s); None
        case Some(t) => Unescaped3(s); Some([(Json.HexValue(s[1]).value * 16 + Json.HexValue(s[2]).value) as char] + t)
      else None
    else
      match QueryUnescape(s[1..])
      case None => assert !WellEscaped(s[1..]); Unescaped1(s); None
      case Some(t) => Unescaped1(s); Some([if s[0] == '+' then ' ' else s[0]] + t)
  }

  /** Past an escape, the rest is well escaped exactly when the whole is. */
  lemma Unescaped3(s: string)
    requires |s| >= 3 && s[0] == '%' && Json.HexValue(s[1]).Some? && Json.HexValue(s[2]).Some?
    ensures WellEscaped(s) <==> WellEscaped(s[3..])
  {
    if WellEscaped(s[3..]) {
      forall i | 0 <= i < |s| && s[i] == '%'
        ensures i + 2 < |s| && Json.HexValue(s[i + 1]).Some? && Json.HexValue(s[i + 2]).Some?
      {
        if i >= 3 { assert s[3..][i - 3] == s[i]; }
      }
    }
    if WellEscaped(s) {
      forall i | 0 <= i < |s[3..]| && s[3..][i] == '%'
        ensures i + 2 < |s[3..]| && Json.HexValue(s[3..][i + 1]).Some? && Json.HexValue(s[3..][i + 2]).Some?
      {
        assert s[i + 3] == '%';
      }
    }
  }

  /** Past one character that is not '%', the rest is well escaped exactly when the whole is. */
  lemma Unescaped1(s: string)
    requires |s| >= 1 && s[0] != '%'
    ensures WellEscaped(s) <==> WellEscaped(s[1..])
  {
    if WellEscaped(s[1..]) {
      forall i | 0 <= i < |s| && s[i] == '%'
        ensures i + 2 < |s| && Json.HexValue(s[i + 1]).Some? && Json.HexValue(s[i + 2]).Some?
      {
        assert s[1..][i - 1] == s[i];
      }
    }
    if WellEscaped(s) {
      forall i | 0 <= i < |s[1..]| && s[1..][i] == '%'
        ensures i + 2 < |s[1..]| && Json.HexValue(s[1..][i + 1]).Some? && Json.HexValue(s[1..][i + 2]).Some?
      {
        assert s[i + 1] == '%';
      }
    }
  }

  /** Text with no '%' and no '+' unescapes to itself. */
  lemma {:induction false} UnescapePlain(s: string)
    requires forall i :: 0 <= i < |s| ==> s[i] != '%' && s[i] != '+'
    ensures QueryUnescape(s) == Some(s)
    decreases |s|
  {
    if s != [] {
      UnescapePlain(s[1..]);
      assert [s[0]] + s[1..] == s;
    }
  }

  /** An escaped space and a plus both read as a space. */
  lemma UnescapeSpace()
    ensures QueryUnescape("a%20b") == Some("a b") && QueryUnescape("a+b") == Some("a b")
  {
    assert "b"[1..] == [] && ['b'] + [] == "b";
    assert QueryUnescape("b") == Some("b");
    assert "%20b"[3..] == "b" && [' '] + "b" == " b";
    assert "+b"[1..] == "b";
    assert QueryUnescape("%20b") == Some(" b") && QueryUnescape("+b") == Some(" b");
    assert "a%20b"[1..] == "%20b" && "a+b"[1..] == "+b" && ['a'] + " b" == "a b";
  }

  /** An escaped letter reads as the letter; a '%' without two hex digits fails. */
  lemma UnescapeLetter()
    ensures QueryUnescape("%41") == Some("A") && QueryUnescape("%4") == None && QueryUnescape("%zz") == None
  {
    assert "%41"[3..] == [] && ['A'] + [] == "A";
  }

  /**
   * c.Cookie: None when the request has no such cookie; otherwise its value query-unescaped,
   * and "" when that fails (gin drops the unescape error).
   */
  function Cookie(r: Request, name: string): (v: Option<string>)
    ensures v.Some? <==> name in r.cookies
    ensures v.Some? && WellEscaped(r.cookies[name]) ==> Some(v.value) == QueryUnescape(r.cookies[name])
    ensures v.Some? && !WellEscaped(r.cookies[name]) ==> v.value == ""
  {
    if name in r.cookies then
      match QueryUnescape(r.cookies[name])
      case Some(u) => Some(u)
      case None => Some("")
    else None
  }

  /** A Set-Cookie header; every cookie of this gateway is also SameSite=Lax. */
  datatype SetCookie = SetCookie(
    name: string, value: string, maxAge: int, path: string, domain: string, secure: bool, httpOnly: bool)

  /**
   * How a browser's cookie jar takes a Set-Cookie header: a negative MaxAge (sent as
   * Max-Age=0) deletes the cookie, any other replaces its value. Deadlines are not modelled.
   */
  function StoreCookie(jar: map<string, string>, c: SetCookie): (j: map<string, string>)
    ensures c.maxAge < 0 ==> c.name !in j
    ensures c.maxAge >= 0 ==> c.name in j && j[c.name] == c.value
    ensures forall n :: n != c.name ==> (n in j <==> n in jar) && (n in jar ==> j[n] == jar[n])
  {
    if c.maxAge < 0 then jar - {c.name} else jar[c.name := c.value]
  }

  /**
   * A redirect target: a path with a query (url.Values.Encode, keys in sorted order), a
   * string used as it is, or a URL whose query gets one parameter set.
   */
  datatype Location =
    | Url(path: string, query: seq<(string, string)>)
    | Raw(target: string)
    | WithParam(target: string, key: string, value: string)

  /** url.Values.Get on an encoded query: the first value of `key`, "" when there is none. */
  function QueryValue(q: seq<(string, string)>, key: string): (v: string)
    ensures (forall i :: 0 <= i < |q| ==> q[i].0 != key) ==> v == ""
  {
    if q == [] then "" else if q[0].0 == key then q[0].1 else QueryValue(q[1..], key)
  }

  datatype Response =
    | Error(status: int, message: string)
    | Errors(status: int, message: string, errors: map<string, string>)
    | Success(status: int, message: string, data: Json.Json)
    | Redirect(status: int, location: Location)
    | LoginForm(status: int, returnTo: string, csrfToken: string, error: string)

  /** A value stored in the context with c.Set. */
  datatype CtxValue = Text(s: string) | Names(names: seq<string>)

  class Context {
    const request: Request
    var values: map<string, CtxValue>
    var cookies: seq<SetCookie>
    var headers: seq<(string, string)>
    var responses: seq<Response>
    var aborted: bool

    constructor(request: Request)
      ensures this.request == request
      ensures values == map[] && cookies == [] && headers == [] && responses == [] && !aborted
    {
      this.request := request;
      values := map[];
      cookies := [];
      headers := [];
      responses := [];
      aborted := false;
    }

    method Set(key: string, v: CtxValue)
      modifies this
      ensures values == old(values)[key := v]
      ensures cookies == old(cookies) && headers == old(headers) && responses == old(responses) && aborted == old(aborted)
    {
      values := values[key := v];
    }

    method AddCookie(c: SetCookie)
      modifies this
      ensures cookies == old(cookies) + [c]
      ensures values == old(values) && headers == old(headers) && responses == old(responses) && aborted == old(aborted)
    {
      cookies := cookies + [c];
    }

    method AddHeader(name: string, value: string)
      modifies this
      ensures headers == old(headers) + [(name, value)]
      ensures values == old(values) && cookies == old(cookies) && responses == old(responses) && aborted == old(aborted)
    {
      headers := headers + [(name, value)];
    }

    /** c.JSON, c.Redirect, c.HTML: write a response; the chain is not stopped. */
    method Respond(r: Response)
      modifies this
      ensures responses == old(responses) + [r]
      ensures values == old(values) && cookies == old(cookies) && headers == old(headers) && aborted == old(aborted)
    {
      responses := responses + [r];
    }

    method Abort()
      modifies this
      ensures aborted
      ensures values == old(values) && cookies == old(cookies) && headers == old(headers) && responses == old(responses)
    {
      aborted := true;
    }

    /** c.AbortWithStatusJSON: write the response and abort the chain. */
    method AbortWith(r: Response)
      modifies this
      ensures responses == old(responses) + [r] && aborted
      ensures values == old(values) && cookies == old(cookies) && headers == old(headers)
    {
      responses := responses + [r];
      aborted := true;
    }

    /** helper.ErrorResponse: c.AbortWithStatusJSON, which writes the error and aborts. */
    method ErrorResponse(status: int, message: string)
      modifies this
      ensures responses == old(responses) + [Error(status, message)] && aborted
      ensures values == old(values) && cookies == old(cookies) && headers == old(headers)
    {
      responses := responses + [Error(status, message)];
      aborted := true;
    }
  }
}
