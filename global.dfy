/**
 * The general helpers of the gateway: input sanitising, object-storage URLs, random codes and
 * the redirect back to the login page.
 */
module Global {
  import opened Base
  import opened Strs
  import B64 = Base64Url
  import Http

  /** Name of the cookie holding the CSRF session id. */
  const CsrfIdToken := "csrf_sid"
  const StudentEmail := "@student.polije.ac.id"
  const EmployeePath := "/employee"
  const StudentPath := "/student"
  const DefaultAvatar := "avatar-1.png"
  const CallbackFrontend := "auth/callback"

  // ---------------------------------------------------------------------------
  // SanitizeInput

  /**
   * HTML-escape, then trim. Escaping keeps white space and never produces it at either end
   * of a non-space character, so this is the same as trimming first and escaping the rest.
   */
  function SanitizeInput(input: string): (r: string)
    ensures r == EscapeHtml(TrimSpace(input))
  {
    SanitizeCommutes(input);
    TrimSpace(EscapeHtml(input))
  }

  lemma SanitizeCommutes(s: string)
    ensures TrimSpace(EscapeHtml(s)) == EscapeHtml(TrimSpace(s))
  {
    var i, j := TrimStart(s), TrimEnd(s);
    var p, m, q := s[..i], s[i..j], s[j..];
    TrimParts(s, i, j);
    EscapeAroundSpaces(p, m, q);
    TrimEscaped(p, m, q);
  }

  /** The white space before the trimmed text, the text, and the white space after it. */
  lemma TrimParts(s: string, i: nat, j: nat)
    requires i == TrimStart(s) && j == TrimEnd(s)
    ensures s == s[..i] + s[i..j] + s[j..] && TrimSpace(s) == s[i..j]
    ensures forall k :: 0 <= k < i ==> IsSpace(s[..i][k])
    ensures forall k :: 0 <= k < |s| - j ==> IsSpace(s[j..][k])
    ensures i < j ==> !IsSpace(s[i..j][0]) && !IsSpace(s[i..j][j - i - 1])
  {
    assert s == s[..i] + s[i..j] + s[j..];
    SpacesBefore(s, i);
    SpacesAfter(s, j);
  }

  lemma SpacesBefore(s: string, i: nat)
    requires i <= |s|
    requires forall k :: 0 <= k < i ==> IsSpace(s[k])
    ensures forall k :: 0 <= k < i ==> IsSpace(s[..i][k])
  {
    forall k | 0 <= k < i ensures IsSpace(s[..i][k]) {
      assert s[..i][k] == s[k];
    }
  }

  lemma SpacesAfter(s: string, j: nat)
    requires j <= |s|
    requires forall k :: j <= k < |s| ==> IsSpace(s[k])
    ensures forall k :: 0 <= k < |s| - j ==> IsSpace(s[j..][k])
  {
    forall k | 0 <= k < |s| - j ensures IsSpace(s[j..][k]) {
      assert s[j..][k] == s[j + k];
    }
  }

  /** Trimming an escaped core between white space gives the escaped core. */
  lemma TrimEscaped(p: string, m: string, q: string)
    requires forall k :: 0 <= k < |p| ==> IsSpace(p[k])
    requires forall k :: 0 <= k < |q| ==> IsSpace(q[k])
    requires m != [] ==> !IsSpace(m[0]) && !IsSpace(m[|m| - 1])
    ensures TrimSpace(p + EscapeHtml(m) + q) == EscapeHtml(m)
  {
    var e := EscapeHtml(m);
    assert e != [] ==> !IsSpace(e[0]) && !IsSpace(e[|e| - 1]) by {
      if m != [] {
        EscapeEnds(m);
      }
    }
    TrimSpaceFrame(p, e, q);
  }

  lemma EscapeAroundSpaces(p: string, m: string, q: string)
    requires forall k :: 0 <= k < |p| ==> IsSpace(p[k])
    requires forall k :: 0 <= k < |q| ==> IsSpace(q[k])
    ensures EscapeHtml(p + m + q) == p + EscapeHtml(m) + q
  {
    EscapeHtmlAppend(p + m, q);
    EscapeHtmlAppend(p, m);
    EscapePlain(p);
    EscapePlain(q);
  }

  /** Sanitising loses nothing but the surrounding white space: unescaping gives back the trimmed input. */
  lemma SanitizeRoundTrip(input: string)
    ensures UnescapeHtml(SanitizeInput(input)) == TrimSpace(input)
  {
    EscapeRoundTrip(TrimSpace(input));
  }

  /** A sanitised text holds no markup character other than the '&' of an entity, and no white space at its ends. */
  lemma SanitizeHasNoMarkup(input: string)
    ensures var r := SanitizeInput(input);
      (forall k :: 0 <= k < |r| ==> !IsHtmlSpecial(r[k]) || r[k] == '&')
      && (r != [] ==> !IsSpace(r[0]) && !IsSpace(r[|r| - 1]))
  {
    EscapeHasNoMarkup(TrimSpace(input));
  }

  // ---------------------------------------------------------------------------
  // GetUrlFile

  /** `path` without one trailing '/'. */
  function Dir(path: string): string {
    if HasSuffix(path, "/") then path[..|path| - 1] else path
  }

  /**
   * The public URL of an object: the storage endpoint, the bucket, the path and the file
   * name, with exactly one '/' before a non-empty file name. `endpoint` and `bucket` are
   * the configured Minio URL and bucket.
   */
  function GetUrlFile(endpoint: string, bucket: string, path: string, filename: string): (r: string)
    ensures r == "" <==> path == "" && filename == ""
    ensures filename != "" ==> r == endpoint + "/" + bucket + Dir(path) + "/" + filename
    ensures filename == "" && path != "" ==> r == endpoint + "/" + bucket + path
  {
    if path == "" && filename == "" then ""
    else
      var fullPath :=
        if filename != "" then
          if HasSuffix(path, "/") then
            assert path == path[..|path| - 1] + "/";
            path + filename
          else path + "/" + filename
        else path;
      endpoint + "/" + bucket + fullPath
  }

  // ---------------------------------------------------------------------------
  // GenCode

  /** 32 random octets in unpadded base64url: 43 URL-safe characters that decode back to the octets. */
  function GenCode(random: seq<byte>): (code: string)
    requires |random| == 32
    ensures |code| == 43
    ensures forall i :: 0 <= i < |code| ==> B64.IsAlphabetChar(code[i])
    ensures B64.Decode(code) == Some(random)
  {
    B64.ThirtyTwoOctets(random);
    B64.RoundTrip(random);
    B64.Encode(random)
  }

  // ---------------------------------------------------------------------------
  // RedirectBackToLogin

  /** The query of the login URL: the base64url-encoded error (when there is one) and return_to, keys sorted. */
  function LoginQuery(returnTo: string, errMsg: string): (q: seq<(string, string)>)
    ensures Http.QueryValue(q, "return_to") == returnTo
    ensures errMsg == "" ==> Http.QueryValue(q, "error") == ""
    ensures errMsg != "" ==> Http.QueryValue(q, "error") == B64.Encode(Octets(errMsg))
    ensures forall i, j :: 0 <= i < j < |q| ==> LexLess(q[i].0, q[j].0)
  {
    if errMsg == "" then [("return_to", returnTo)]
    else [("error", B64.Encode(Octets(errMsg))), ("return_to", returnTo)]
  }

  /** The login page's reading of the error parameter: base64url-decoded, "" when absent or undecodable. */
  function LoginError(enc: string): (errMsg: string)
    ensures enc == "" ==> errMsg == ""
    ensures IsByteString(errMsg)
  {
    if enc == "" then ""
    else match B64.Decode(enc)
      case Some(b) => FromOctets(b)
      case None => ""
  }

  /** An error message of bytes passed to the login page in the redirect is the one it shows. */
  lemma LoginErrorRoundTrip(returnTo: string, errMsg: string)
    requires IsByteString(errMsg)
    ensures LoginError(Http.QueryValue(LoginQuery(returnTo, errMsg), "error")) == errMsg
  {
    if errMsg != "" {
      B64.RoundTrip(Octets(errMsg));
      OctetsRoundTrip(errMsg);
      assert B64.Encode(Octets(errMsg)) != "" by {
        assert |B64.Encode(Octets(errMsg))| == B64.EncodedLen(|errMsg|);
      }
    }
  }

  /** Redirect (302, not aborting the chain) to the login page with return_to and the encoded error. */
  method RedirectBackToLogin(ctx: Http.Context, loginPath: string, returnTo: string, errMsg: string)
    modifies ctx
    ensures ctx.responses == old(ctx.responses) + [Http.Redirect(302, Http.Url(loginPath, LoginQuery(returnTo, errMsg)))]
    ensures ctx.values == old(ctx.values) && ctx.cookies == old(ctx.cookies) && ctx.headers == old(ctx.headers)
    ensures ctx.aborted == old(ctx.aborted)
  {
    ctx.Respond(Http.Redirect(302, Http.Url(loginPath, LoginQuery(returnTo, errMsg))));
  }
}
