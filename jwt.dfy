/**
 * The access token: a JSON Web Token (RFC 7519) in the compact JWS serialization
 * (section 7.1 of RFC 7515), signed with HMAC SHA-256 (section 3.2 of RFC 7518), as the
 * token service issues it and as its validator checks it. The keyed hash itself is a
 * parameter: the properties below hold for every MAC function.
 */
module Jwt {
  import opened Base
  import opened Strs
  import opened Json
  import B64 = Base64Url

  /** The HMAC algorithms of section 3.2 of RFC 7518: the only ones the key callback accepts. */
  datatype Alg = HS256 | HS384 | HS512

  function AlgName(a: Alg): string {
    match a
    case HS256 => "HS256"
    case HS384 => "HS384"
    case HS512 => "HS512"
  }

  function HmacAlg(name: string): (r: Option<Alg>)
    ensures r.Some? ==> AlgName(r.value) == name
  {
    if name == "HS256" then Some(HS256)
    else if name == "HS384" then Some(HS384)
    else if name == "HS512" then Some(HS512)
    else None
  }

  /** Every "alg" the JWT library has registered: HMAC, RSA, ECDSA, RSA-PSS, EdDSA and "none". */
  predicate Registered(name: string) {
    HmacAlg(name).Some? ||
    name in {"RS256", "RS384", "RS512", "ES256", "ES384", "ES512", "PS256", "PS384", "PS512", "EdDSA", "none"}
  }

  /** HMAC(alg, key, message): the keyed hash the signature is. */
  type Mac = (Alg, seq<byte>, seq<byte>) -> seq<byte>

  /** The token's claims: the user id, role and permission names, and the registered time claims. */
  datatype Claims = Claims(
    userId: string,
    roles: seq<string>,
    permissions: seq<string>,
    expiresAt: Option<int>,
    notBefore: Option<int>,
    issuedAt: Option<int>)

  /** The validator's verdict; every verdict but Valid is an error to the caller. */
  datatype Verdict =
    | Valid(claims: Claims)
    | Malformed
    | Unverifiable
    | SignatureInvalid
    | Expired
    | NotYetValid

  // ---------------------------------------------------------------------------
  // Writing

  /** The header the library writes for an algorithm, keys in sorted order. */
  function Header(a: Alg): Json {
    Obj([Field("alg", Str(AlgName(a))), Field("typ", Str("JWT"))])
  }

  /** The time claims are optional, with omitempty: written only when set. */
  function TimeField(key: string, t: Option<int>): seq<Field> {
    match t
    case None => []
    case Some(n) => [Field(key, Num(n))]
  }

  function ClaimsJson(c: Claims): Json {
    Obj([Field("user_id", Str(c.userId)), Field("roles", FromStrings(c.roles)),
         Field("permissions", FromStrings(c.permissions))]
        + TimeField("exp", c.expiresAt) + TimeField("nbf", c.notBefore) + TimeField("iat", c.issuedAt))
  }

  /** One dot-free segment: the base64url of a JSON document's bytes. */
  function Segment(j: Json): string {
    B64.Encode(Octets(Serialize(j)))
  }

  function SigningInput(a: Alg, c: Claims): string {
    Segment(Header(a)) + "." + Segment(ClaimsJson(c))
  }

  /** SignedString: the signing input, a dot, and the base64url of its keyed hash. */
  function Sign(mac: Mac, key: string, a: Alg, c: Claims): string {
    SigningInput(a, c) + "." + B64.Encode(mac(a, Octets(key), Octets(SigningInput(a, c))))
  }

  /** The claims GenerateToken signs at time `now`: expiry `hours` hours later, issued now. */
  function TokenClaims(userId: string, roles: seq<string>, permissions: seq<string>, now: int, hours: int): (c: Claims)
    ensures c.expiresAt == Some(now + hours * 3600) && c.issuedAt == Some(now) && c.notBefore.None?
  {
    Claims(userId, roles, permissions, Some(now + hours * 3600), None, Some(now))
  }

  /** GenerateToken: the signed token for those claims. */
  function GenerateToken(mac: Mac, key: string, hours: int, now: int,
                         userId: string, roles: seq<string>, permissions: seq<string>): string {
    Sign(mac, key, HS256, TokenClaims(userId, roles, permissions, now, hours))
  }

  // ---------------------------------------------------------------------------
  // Reading

  /** A base64url segment holding one JSON document. */
  function DecodeSegment(seg: string): Option<Json> {
    match B64.Decode(seg)
    case None => None
    case Some(b) => Parse(FromOctets(b))
  }

  /** The header as the library reads it into a map: an object, or null for an empty map. */
  function HeaderMap(j: Json): Option<map<string, Json>> {
    match j
    case Obj(fs) => Some(FieldsMap(fs))
    case Null => Some(map[])
    case _ => None
  }

  /** An "aud" claim: a string, an array of strings, or null. */
  predicate AudienceOk(o: Option<Json>) {
    match o
    case Some(Str(_)) => true
    case _ => AsStrings(o).Some?
  }

  /** The claims struct as json.Unmarshal fills it; iss, sub, aud and jti are type-checked and dropped. */
  function ClaimsOf(j: Json): Option<Claims> {
    match j
    case Null => Some(Claims("", [], [], None, None, None))
    case Obj(fs) =>
      var m := FieldsMap(fs);
      var uid := AsString(Lookup(m, "user_id"));
      var roles, perms := AsStrings(Lookup(m, "roles")), AsStrings(Lookup(m, "permissions"));
      var exp, nbf, iat := AsOptInt(Lookup(m, "exp")), AsOptInt(Lookup(m, "nbf")), AsOptInt(Lookup(m, "iat"));
      var others := AsString(Lookup(m, "iss")).Some? && AsString(Lookup(m, "sub")).Some?
                    && AsString(Lookup(m, "jti")).Some? && AudienceOk(Lookup(m, "aud"));
      if uid.Some? && roles.Some? && perms.Some? && exp.Some? && nbf.Some? && iat.Some? && others then
        Some(Claims(uid.value, roles.value, perms.value, exp.value, nbf.value, iat.value))
      else None
    case _ => None
  }

  /** The registered time claims at time `now`: exp must lie in the future, nbf must not. */
  function CheckTimes(c: Claims, now: int): (v: Verdict)
    ensures v.Valid? <==> (c.expiresAt.None? || now < c.expiresAt.value) &&
                          (c.notBefore.None? || c.notBefore.value <= now)
    ensures v.Valid? ==> v.claims == c
  {
    if c.expiresAt.Some? && !(now < c.expiresAt.value) then Expired
    else if c.notBefore.Some? && now < c.notBefore.value then NotYetValid
    else Valid(c)
  }

  /** The unverified parse: the header map and the claims, None when either segment is malformed. */
  function ParseUnverified(s0: string, s1: string): Option<(map<string, Json>, Claims)> {
    match DecodeSegment(s0)
    case None => None
    case Some(hj) =>
      match DecodeSegment(s1)
      case None => None
      case Some(cj) =>
        match HeaderMap(hj)
        case None => None
        case Some(h) =>
          match ClaimsOf(cj)
          case None => None
          case Some(c) => Some((h, c))
  }

  /** The header's "alg" when it is a string. */
  function AlgHeader(h: map<string, Json>): Option<string> {
    match Lookup(h, "alg")
    case Some(Str(name)) => Some(name)
    case _ => None
  }

  /** ValidateToken: parse, check the algorithm is HMAC, check the signature, then the times. */
  function Validate(mac: Mac, key: string, token: string, now: int): Verdict {
    var parts := Split(token, '.');
    if |parts| != 3 then Malformed
    else
      match ParseUnverified(parts[0], parts[1])
      case None => Malformed
      case Some((h, c)) =>
        var alg := AlgHeader(h);
        if !(alg.Some? && Registered(alg.value)) then Unverifiable
        else
          match B64.Decode(parts[2])
          case None => Malformed
          case Some(sig) =>
            match HmacAlg(alg.value)
            case None => Unverifiable
            case Some(a) =>
              if mac(a, Octets(key), Octets(parts[0] + "." + parts[1])) != sig then SignatureInvalid
              else CheckTimes(c, now)
  }

  // ---------------------------------------------------------------------------
  // Properties

  /** A valid verdict means the signature is the keyed hash of the first two segments under an HMAC algorithm. */
  lemma ValidIsSigned(mac: Mac, key: string, token: string, now: int)
    requires Validate(mac, key, token, now).Valid?
    ensures var parts := Split(token, '.');
      |parts| == 3 &&
      exists a: Alg :: B64.Decode(parts[2]) == Some(mac(a, Octets(key), Octets(parts[0] + "." + parts[1])))
  {
    var parts := Split(token, '.');
    var h := ParseUnverified(parts[0], parts[1]).value.0;
    var a := HmacAlg(AlgHeader(h).value).value;
    assert B64.Decode(parts[2]) == Some(mac(a, Octets(key), Octets(parts[0] + "." + parts[1])));
  }

  /** A valid verdict means the token has not expired and is already in force at `now`. */
  lemma ValidIsCurrent(mac: Mac, key: string, token: string, now: int)
    requires Validate(mac, key, token, now).Valid?
    ensures var c := Validate(mac, key, token, now).claims;
      (c.expiresAt.None? || now < c.expiresAt.value) && (c.notBefore.None? || c.notBefore.value <= now)
  {
    var parts := Split(token, '.');
    var c := ParseUnverified(parts[0], parts[1]).value.1;
    assert Validate(mac, key, token, now) == CheckTimes(c, now);
  }

  predicate ByteStrings(xs: seq<string>) {
    forall i :: 0 <= i < |xs| ==> IsByteString(xs[i])
  }

  lemma StringsBytes(xs: seq<string>)
    requires ByteStrings(xs)
    ensures ByteJson(FromStrings(xs))
  {
    if xs != [] {
      var items := FromStrings(xs).items;
      forall i | 0 <= i < |items| ensures ByteJson(items[i]) {
        assert items[i] == Str(xs[i]);
      }
    }
  }

  lemma SegmentRoundTrip(j: Json)
    requires ByteJson(j)
    ensures DecodeSegment(Segment(j)) == Some(j)
  {
    SerializeBytes(j);
    B64.RoundTrip(Octets(Serialize(j)));
    OctetsRoundTrip(Serialize(j));
    RoundTrip(j);
  }

  lemma ClaimsJsonBytes(c: Claims)
    requires IsByteString(c.userId) && ByteStrings(c.roles) && ByteStrings(c.permissions)
    ensures ByteJson(ClaimsJson(c))
  {
    StringsBytes(c.roles);
    StringsBytes(c.permissions);
    var fs := ClaimsJson(c).fields;
    assert forall i :: 3 <= i < |fs| ==> fs[i].value.Num?;
  }

  /** The map after a time claim that is written only when set. */
  function WithTime(m: map<string, Json>, key: string, t: Option<int>): map<string, Json> {
    if t.Some? then m[key := Num(t.value)] else m
  }

  lemma TimeFieldMap(p: seq<Field>, key: string, t: Option<int>)
    ensures FieldsMap(p + TimeField(key, t)) == WithTime(FieldsMap(p), key, t)
  {
    if t.Some? {
      FieldsMapSnoc(p, Field(key, Num(t.value)));
    } else {
      assert p + TimeField(key, t) == p;
    }
  }

  lemma ClaimsFieldsMap(c: Claims)
    ensures var m := FieldsMap(ClaimsJson(c).fields);
      Lookup(m, "user_id") == Some(Str(c.userId)) &&
      Lookup(m, "roles") == Some(FromStrings(c.roles)) &&
      Lookup(m, "permissions") == Some(FromStrings(c.permissions)) &&
      Lookup(m, "exp") == (if c.expiresAt.Some? then Some(Num(c.expiresAt.value)) else None) &&
      Lookup(m, "nbf") == (if c.notBefore.Some? then Some(Num(c.notBefore.value)) else None) &&
      Lookup(m, "iat") == (if c.issuedAt.Some? then Some(Num(c.issuedAt.value)) else None)
  {
    var m3 := FirstClaimsMap(c);
    var p3 := ClaimsJson(c).fields[..3];
    var p4 := p3 + TimeField("exp", c.expiresAt);
    var p5 := p4 + TimeField("nbf", c.notBefore);
    TimeFieldMap(p3, "exp", c.expiresAt);
    TimeFieldMap(p4, "nbf", c.notBefore);
    TimeFieldMap(p5, "iat", c.issuedAt);
    assert ClaimsJson(c).fields == p5 + TimeField("iat", c.issuedAt);
    TimesLookup(m3, c);
  }

  /** The map of the three members every claims object starts with. */
  lemma FirstClaimsMap(c: Claims) returns (m3: map<string, Json>)
    ensures FieldsMap(ClaimsJson(c).fields[..3]) == m3
    ensures m3 == map["user_id" := Str(c.userId), "roles" := FromStrings(c.roles), "permissions" := FromStrings(c.permissions)]
  {
    var f0, f1, f2 := Field("user_id", Str(c.userId)), Field("roles", FromStrings(c.roles)),
                      Field("permissions", FromStrings(c.permissions));
    assert ClaimsJson(c).fields[..3] == [f0, f1, f2];
    FieldsMapSnoc([], f0);
    FieldsMapSnoc([f0], f1);
    assert [f0] + [f1] == [f0, f1];
    FieldsMapSnoc([f0, f1], f2);
    assert [f0, f1] + [f2] == [f0, f1, f2];
    m3 := FieldsMap([f0, f1, f2]);
  }

  lemma TimesLookup(m3: map<string, Json>, c: Claims)
    requires m3 == map["user_id" := Str(c.userId), "roles" := FromStrings(c.roles), "permissions" := FromStrings(c.permissions)]
    ensures var m := WithTime(WithTime(WithTime(m3, "exp", c.expiresAt), "nbf", c.notBefore), "iat", c.issuedAt);
      Lookup(m, "user_id") == Some(Str(c.userId)) &&
      Lookup(m, "roles") == Some(FromStrings(c.roles)) &&
      Lookup(m, "permissions") == Some(FromStrings(c.permissions)) &&
      Lookup(m, "exp") == (if c.expiresAt.Some? then Some(Num(c.expiresAt.value)) else None) &&
      Lookup(m, "nbf") == (if c.notBefore.Some? then Some(Num(c.notBefore.value)) else None) &&
      Lookup(m, "iat") == (if c.issuedAt.Some? then Some(Num(c.issuedAt.value)) else None)
  {
  }

  lemma ClaimsKeysAbsent(c: Claims)
    ensures var m := FieldsMap(ClaimsJson(c).fields);
      "iss" !in m && "sub" !in m && "jti" !in m && "aud" !in m
  {
    var fs := ClaimsJson(c).fields;
    assert forall i :: 0 <= i < |fs| ==> fs[i].key in {"user_id", "roles", "permissions", "exp", "nbf", "iat"};
    FieldsMapKeys(fs, "iss");
    FieldsMapKeys(fs, "sub");
    FieldsMapKeys(fs, "jti");
    FieldsMapKeys(fs, "aud");
  }

  /** The claims survive being written into a token and read back. */
  lemma ClaimsRoundTrip(c: Claims)
    ensures ClaimsOf(ClaimsJson(c)) == Some(c)
  {
    ClaimsFieldsMap(c);
    ClaimsKeysAbsent(c);
    StringsRoundTrip(c.roles);
    StringsRoundTrip(c.permissions);
  }

  /** An unpadded base64url string has no dot in it. */
  lemma EncodedHasNoDot(b: seq<byte>)
    ensures '.' !in B64.Encode(b)
  {
    var e := B64.Encode(b);
    assert forall i :: 0 <= i < |e| ==> B64.IsAlphabetChar(e[i]);
  }

  lemma SplitThree(s0: string, s1: string, s2: string)
    requires '.' !in s0 && '.' !in s1 && '.' !in s2
    ensures Split(s0 + "." + s1 + "." + s2, '.') == [s0, s1, s2]
  {
    var rest := s1 + "." + s2;
    SplitAtFirst(s1, '.', s2);
    assert s0 + "." + s1 + "." + s2 == s0 + ['.'] + rest;
    SplitAtFirst(s0, '.', rest);
  }

  /** The three segments of a signed token are the ones its signer joined. */
  lemma SignParts(mac: Mac, key: string, a: Alg, c: Claims)
    ensures var sig := mac(a, Octets(key), Octets(SigningInput(a, c)));
      Split(Sign(mac, key, a, c), '.') == [Segment(Header(a)), Segment(ClaimsJson(c)), B64.Encode(sig)]
  {
    var sig := mac(a, Octets(key), Octets(SigningInput(a, c)));
    EncodedHasNoDot(Octets(Serialize(Header(a))));
    EncodedHasNoDot(Octets(Serialize(ClaimsJson(c))));
    EncodedHasNoDot(sig);
    SplitThree(Segment(Header(a)), Segment(ClaimsJson(c)), B64.Encode(sig));
  }

  lemma HeaderBytes(a: Alg)
    ensures ByteJson(Header(a))
  {
    var fs := Header(a).fields;
    assert IsByteString(fs[0].key) && IsByteString(fs[1].key);
  }

  lemma HeaderAlg(a: Alg)
    ensures HeaderMap(Header(a)).Some? && AlgHeader(HeaderMap(Header(a)).value) == Some(AlgName(a))
  {
    var fs := Header(a).fields;
    FieldsMapSnoc([], fs[0]);
    FieldsMapSnoc([fs[0]], fs[1]);
    assert fs == [fs[0]] + [fs[1]];
  }

  /** The unverified parse of a signed token's first two segments: its header and its claims. */
  lemma SignedHeaderAndClaims(a: Alg, c: Claims)
    requires IsByteString(c.userId) && ByteStrings(c.roles) && ByteStrings(c.permissions)
    ensures var p := ParseUnverified(Segment(Header(a)), Segment(ClaimsJson(c)));
      p.Some? && p.value.1 == c && AlgHeader(p.value.0) == Some(AlgName(a))
  {
    HeaderBytes(a);
    SegmentRoundTrip(Header(a));
    ClaimsJsonBytes(c);
    SegmentRoundTrip(ClaimsJson(c));
    ClaimsRoundTrip(c);
    HeaderAlg(a);
    ParseUnverifiedOf(Segment(Header(a)), Segment(ClaimsJson(c)), Header(a), ClaimsJson(c), c);
  }

  lemma ParseUnverifiedOf(s0: string, s1: string, hj: Json, cj: Json, c: Claims)
    requires DecodeSegment(s0) == Some(hj) && DecodeSegment(s1) == Some(cj)
    requires HeaderMap(hj).Some? && ClaimsOf(cj) == Some(c)
    ensures ParseUnverified(s0, s1) == Some((HeaderMap(hj).value, c))
  {
  }

  /**
   * A token signed with an HMAC algorithm and the key validates with the same key and MAC
   * function, and yields back its claims exactly when their time claims admit `now`.
   */
  lemma SignValidate(mac: Mac, key: string, a: Alg, c: Claims, now: int)
    requires IsByteString(c.userId) && ByteStrings(c.roles) && ByteStrings(c.permissions)
    ensures Validate(mac, key, Sign(mac, key, a, c), now) == CheckTimes(c, now)
  {
    var sig := mac(a, Octets(key), Octets(SigningInput(a, c)));
    var token := Sign(mac, key, a, c);
    SignParts(mac, key, a, c);
    SignedHeaderAndClaims(a, c);
    B64.RoundTrip(sig);
    var parts := Split(token, '.');
    assert parts[0] + "." + parts[1] == SigningInput(a, c);
    var h := ParseUnverified(parts[0], parts[1]).value.0;
    AcceptedSteps(mac, key, token, now, h, c, a, sig);
  }

  /** The path through the validator that ends in the time checks. */
  lemma AcceptedSteps(mac: Mac, key: string, token: string, now: int,
                      h: map<string, Json>, c: Claims, a: Alg, sig: seq<byte>)
    requires |Split(token, '.')| == 3
    requires var parts := Split(token, '.');
      ParseUnverified(parts[0], parts[1]) == Some((h, c)) && AlgHeader(h) == Some(AlgName(a)) &&
      B64.Decode(parts[2]) == Some(sig) && mac(a, Octets(key), Octets(parts[0] + "." + parts[1])) == sig
    ensures Validate(mac, key, token, now) == CheckTimes(c, now)
  {
    assert HmacAlg(AlgName(a)) == Some(a);
  }

  /** A generated token is accepted until its expiry, `hours` hours after issue, and rejected as expired from then on. */
  lemma GenerateValidate(mac: Mac, key: string, hours: int, now: int, later: int,
                         userId: string, roles: seq<string>, permissions: seq<string>)
    requires IsByteString(userId) && ByteStrings(roles) && ByteStrings(permissions)
    ensures var v := Validate(mac, key, GenerateToken(mac, key, hours, now, userId, roles, permissions), later);
      (later < now + hours * 3600 ==> v == Valid(TokenClaims(userId, roles, permissions, now, hours))) &&
      (later >= now + hours * 3600 ==> v == Expired)
  {
    SignValidate(mac, key, HS256, TokenClaims(userId, roles, permissions, now, hours), later);
  }

  /** A string without exactly two dots is never a valid token. */
  lemma NotThreeSegments(mac: Mac, key: string, token: string, now: int)
    requires |Split(token, '.')| != 3
    ensures Validate(mac, key, token, now) == Malformed
  {
  }
}
