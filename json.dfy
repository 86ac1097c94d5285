/**
 * JSON values as encoding/json writes and reads them for the records this system stores:
 * a serializer over a small value type and a parser that reads back everything the
 * serializer writes (and JSON whitespace between tokens).
 */
module Json {
  import opened Base
  import opened Strs

  datatype Json =
    | Null
    | Bool(b: bool)
    | Num(n: int)
    | Str(s: string)
    | Arr(items: seq<Json>)
    | Obj(fields: seq<Field>)

  datatype Field = Field(key: string, value: Json)

  // ---------------------------------------------------------------------------
  // Strings, escaped the way encoding/json does (HTML-safe)

  function HexDigit(d: nat): (c: char)
    requires d < 16
  {
    if d < 10 then ('0' as int + d) as char else ('a' as int + (d - 10)) as char
  }

  function HexValue(c: char): (r: Option<nat>)
    ensures r.Some? ==> r.value < 16
  {
    if '0' <= c <= '9' then Some(c as int - '0' as int)
    else if 'a' <= c <= 'f' then Some(c as int - 'a' as int + 10)
    else if 'A' <= c <= 'F' then Some(c as int - 'A' as int + 10)
    else None
  }

  /** Characters encoding/json writes as a \u escape: control characters, '<', '>', '&'. */
  predicate NeedsUnicodeEscape(c: char) {
    c as int < 0x20 || c == '<' || c == '>' || c == '&'
  }

  /** One character inside a JSON string literal. */
  function EscapeChar(c: char): string {
    if c == '"' then "\\\""
    else if c == '\\' then "\\\\"
    else if c == '\U{0008}' then "\\b"
    else if c == '\U{000C}' then "\\f"
    else if c == '\n' then "\\n"
    else if c == '\r' then "\\r"
    else if c == '\t' then "\\t"
    else if NeedsUnicodeEscape(c) then "\\u00" + [HexDigit(c as int / 16), HexDigit(c as int % 16)]
    else if c == '\U{2028}' || c == '\U{2029}' then "\\u202" + [HexDigit(c as int % 16)]
    else [c]
  }

  function Escape(s: string): string
    decreases |s|
  {
    if s == [] then "" else EscapeChar(s[0]) + Escape(s[1..])
  }

  function Quote(s: string): string {
    "\"" + Escape(s) + "\""
  }

  // ---------------------------------------------------------------------------
  // Serializer

  /** json.Marshal: compact, members in the given order; the first character tells the kind of value. */
  function Serialize(j: Json): (s: string)
    ensures |s| > 0 && !IsWs(s[0])
    ensures s[0] == '{' <==> j.Obj?
    ensures s[0] == '[' <==> j.Arr?
    ensures s[0] == '"' <==> j.Str?
    ensures s[0] == '-' || IsDigit(s[0]) <==> j.Num?
    decreases j, 1
  {
    match j
    case Null => "null"
    case Bool(b) => if b then "true" else "false"
    case Num(n) => IntToDecimal(n)
    case Str(s) => Quote(s)
    case Arr(items) => "[" + SerializeItems(items) + "]"
    case Obj(fields) => "{" + SerializeFields(fields) + "}"
  }

  function SerializeItems(items: seq<Json>): string
    decreases items, 0
  {
    if items == [] then ""
    else Serialize(items[0]) + (if |items| == 1 then "" else "," + SerializeItems(items[1..]))
  }

  function SerializeFields(fields: seq<Field>): string
    decreases fields, 0
  {
    if fields == [] then ""
    else
      Quote(fields[0].key) + ":" + Serialize(fields[0].value)
      + (if |fields| == 1 then "" else "," + SerializeFields(fields[1..]))
  }

  // ---------------------------------------------------------------------------
  // Parser

  predicate IsWs(c: char) {
    c == ' ' || c == '\t' || c == '\n' || c == '\r'
  }

  function SkipWs(s: string): (t: string)
    ensures |t| <= |s|
    ensures t == [] || !IsWs(t[0])
    decreases |s|
  {
    if s != [] && IsWs(s[0]) then SkipWs(s[1..]) else s
  }

  /** The value of four hex digits at the start of `t`. */
  function Hex4(t: string): (r: Option<nat>)
    requires |t| >= 4
    ensures r.Some? ==> r.value < 0x1_0000
  {
    match (HexValue(t[0]), HexValue(t[1]), HexValue(t[2]), HexValue(t[3]))
    case (Some(a), Some(b), Some(c), Some(d)) =>
      Some(a * 4096 + b * 256 + c * 16 + d)
    case _ => None
  }

  predicate IsSurrogate(v: nat) {
    0xD800 <= v < 0xE000
  }

  /**
   * utf16.DecodeRune of a surrogate `v` and the escape `t` that follows it: the code point
   * above U+FFFF they stand for when `v` is a high surrogate and `t` starts with the escape
   * of a low one, otherwise None.
   */
  function SurrogatePair(v: nat, t: string): (r: Option<char>)
    ensures r.Some? ==> 0x1_0000 <= r.value as int < 0x11_0000
  {
    if 0xD800 <= v < 0xDC00 && |t| >= 6 && t[0] == '\\' && t[1] == 'u' then
      match Hex4(t[2..6])
      case Some(w) =>
        if 0xDC00 <= w < 0xE000 then Some(((v - 0xD800) * 0x400 + (w - 0xDC00) + 0x1_0000) as char) else None
      case None => None
    else None
  }

  /**
   * The escape sequence after a backslash: the character it stands for and how many
   * characters it takes. A \u surrogate takes the escape after it when the two make a pair;
   * a lone one stands for U+FFFD, as in encoding/json.
   */
  function Unescape(t: string): (r: Option<(char, nat)>)
    ensures r.Some? ==> 1 <= r.value.1 <= |t|
  {
    if t == [] then None
    else if t[0] == '"' then Some(('"', 1))
    else if t[0] == '\\' then Some(('\\', 1))
    else if t[0] == '/' then Some(('/', 1))
    else if t[0] == 'b' then Some(('\U{0008}', 1))
    else if t[0] == 'f' then Some(('\U{000C}', 1))
    else if t[0] == 'n' then Some(('\n', 1))
    else if t[0] == 'r' then Some(('\r', 1))
    else if t[0] == 't' then Some(('\t', 1))
    else if t[0] == 'u' && |t| >= 5 then
      match Hex4(t[1..5])
      case Some(v) =>
        if !IsSurrogate(v) then Some((v as char, 5))
        else (
          match SurrogatePair(v, t[5..])
          case Some(c) => Some((c, 11))
          case None => Some(('\U{FFFD}', 5)))
      case None => None
    else None
  }

  /** A \u escape of a high and a low surrogate reads as the one character they encode. */
  lemma PairedSurrogates()
    ensures Unescape("ud83d\\ude00") == Some(('\U{1F600}', 11))
    ensures Unescape("ud83d") == Some(('\U{FFFD}', 5)) && Unescape("ude00\\ud83d") == Some(('\U{FFFD}', 5))
  {
    var t := "ud83d\\ude00";
    assert t[1..5] == "d83d" && t[5..] == "\\ude00" && t[5..][2..6] == "de00";
    assert Hex4("d83d") == Some(0xD83D) && Hex4("de00") == Some(0xDE00);
    assert "ud83d"[1..5] == "d83d" && "ud83d"[5..] == [];
    var u := "ude00\\ud83d";
    assert u[1..5] == "de00";
  }

  /** The characters of a string literal after its opening quote, and what follows the closing quote. */
  function ParseChars(t: string): (r: Option<(string, string)>)
    ensures r.Some? ==> |r.value.1| < |t|
    decreases |t|
  {
    if t == [] then None
    else if t[0] == '"' then Some(("", t[1..]))
    else if t[0] == '\\' then
      match Unescape(t[1..])
      case None => None
      case Some((c, k)) =>
        match ParseChars(t[1 + k..])
        case None => None
        case Some((s, rest)) => Some(([c] + s, rest))
    else if t[0] as int < 0x20 then None
    else
      match ParseChars(t[1..])
      case None => None
      case Some((s, rest)) => Some(([t[0]] + s, rest))
  }

  /** Length of the run of decimal digits at the start of `s`. */
  function DigitRun(s: string): (n: nat)
    ensures n <= |s| && AllDigits(s[..n])
    ensures n < |s| ==> !IsDigit(s[n])
    decreases |s|
  {
    if s != [] && IsDigit(s[0]) then
      var n := 1 + DigitRun(s[1..]);
      assert s[..n] == [s[0]] + s[1..][..n - 1];
      n
    else 0
  }

  /** Digits without a leading zero, not followed by a fraction or an exponent (which are not read). */
  function ParseDigits(u: string): (r: Option<(nat, string)>)
    ensures r.Some? ==> |r.value.1| < |u|
  {
    var n := DigitRun(u);
    if n == 0 || (u[0] == '0' && n > 1) then None
    else if n < |u| && (u[n] == '.' || u[n] == 'e' || u[n] == 'E') then None
    else Some((DecimalValue(u[..n]), u[n..]))
  }

  /** An integer: an optional '-' and its digits. */
  function ParseNumber(t: string): (r: Option<(Json, string)>)
    ensures r.Some? ==> |r.value.1| < |t| && r.value.0.Num?
  {
    if t != [] && t[0] == '-' then
      match ParseDigits(t[1..])
      case None => None
      case Some((v, rest)) => Some((Num(-(v as int)), rest))
    else
      match ParseDigits(t)
      case None => None
      case Some((v, rest)) => Some((Num(v), rest))
  }

  function ParseValue(s: string): (r: Option<(Json, string)>)
    ensures r.Some? ==> |r.value.1| < |s|
    decreases |s|, 0
  {
    var t := SkipWs(s);
    if t == [] then None
    else if t[0] == '{' then ParseObject(t[1..])
    else if t[0] == '[' then ParseArray(t[1..])
    else if t[0] == '"' then
      match ParseChars(t[1..])
      case None => None
      case Some((str, rest)) => Some((Str(str), rest))
    else if t[0] == '-' || IsDigit(t[0]) then ParseNumber(t)
    else if |t| >= 4 && t[0] == 'n' && t[1] == 'u' && t[2] == 'l' && t[3] == 'l' then Some((Null, t[4..]))
    else if |t| >= 4 && t[0] == 't' && t[1] == 'r' && t[2] == 'u' && t[3] == 'e' then Some((Bool(true), t[4..]))
    else if |t| >= 5 && t[0] == 'f' && t[1] == 'a' && t[2] == 'l' && t[3] == 's' && t[4] == 'e' then Some((Bool(false), t[5..]))
    else None
  }

  /** After '[': the elements and the closing bracket. */
  function ParseArray(t: string): (r: Option<(Json, string)>)
    ensures r.Some? ==> |r.value.1| < |t| && r.value.0.Arr?
    decreases |t|, 2
  {
    var u := SkipWs(t);
    if u != [] && u[0] == ']' then Some((Arr([]), u[1..]))
    else
      match ParseElements(u)
      case None => None
      case Some((items, rest)) => Some((Arr(items), rest))
  }

  /** One or more comma-separated values and the closing bracket. */
  function ParseElements(t: string): (r: Option<(seq<Json>, string)>)
    ensures r.Some? ==> |r.value.1| < |t|
    decreases |t|, 1
  {
    match ParseValue(t)
    case None => None
    case Some((v, r)) =>
      var u := SkipWs(r);
      if u != [] && u[0] == ']' then Some(([v], u[1..]))
      else if u != [] && u[0] == ',' then
        match ParseElements(u[1..])
        case None => None
        case Some((vs, rest)) => Some(([v] + vs, rest))
      else None
  }

  /** After '{': the members and the closing brace. */
  function ParseObject(t: string): (r: Option<(Json, string)>)
    ensures r.Some? ==> |r.value.1| < |t| && r.value.0.Obj?
    decreases |t|, 2
  {
    var u := SkipWs(t);
    if u != [] && u[0] == '}' then Some((Obj([]), u[1..]))
    else
      match ParseMembers(u)
      case None => None
      case Some((fields, rest)) => Some((Obj(fields), rest))
  }

  /** One or more comma-separated "key": value members and the closing brace. */
  function ParseMembers(t: string): (r: Option<(seq<Field>, string)>)
    ensures r.Some? ==> |r.value.1| < |t|
    decreases |t|, 1
  {
    var u := SkipWs(t);
    if u == [] || u[0] != '"' then None
    else
      match ParseChars(u[1..])
      case None => None
      case Some((key, r0)) => ParseMemberValue(key, r0)
  }

  /** The ": value" after a member's key, then a closing brace or a comma and further members. */
  function ParseMemberValue(key: string, r0: string): (r: Option<(seq<Field>, string)>)
    ensures r.Some? ==> |r.value.1| < |r0|
    decreases |r0|, 0
  {
    var r1 := SkipWs(r0);
    if r1 == [] || r1[0] != ':' then None
    else
      match ParseValue(r1[1..])
      case None => None
      case Some((v, r2)) =>
        var r3 := SkipWs(r2);
        if r3 != [] && r3[0] == '}' then Some(([Field(key, v)], r3[1..]))
        else if r3 != [] && r3[0] == ',' then
          match ParseMembers(r3[1..])
          case None => None
          case Some((fs, rest)) => Some(([Field(key, v)] + fs, rest))
        else None
  }

  /** json.Unmarshal's reading of a whole document: one value, then only whitespace. */
  function Parse(s: string): (r: Option<Json>)
    ensures SkipWs(s) == [] ==> r.None?
    ensures r.Some? ==> (r.value.Obj? <==> SkipWs(s)[0] == '{') && (r.value.Arr? <==> SkipWs(s)[0] == '[')
                        && (r.value.Str? <==> SkipWs(s)[0] == '"')
  {
    match ParseValue(s)
    case None => None
    case Some((v, rest)) => if SkipWs(rest) == [] then Some(v) else None
  }

  // ---------------------------------------------------------------------------
  // Reading an object into a Go value

  /** The members of an object by key; a later duplicate replaces an earlier one, as when json.Unmarshal fills a struct. */
  function FieldsMap(fields: seq<Field>): map<string, Json>
    decreases |fields|
  {
    if fields == [] then map[]
    else FieldsMap(fields[..|fields| - 1])[fields[|fields| - 1].key := fields[|fields| - 1].value]
  }

  lemma FieldsMapSnoc(fields: seq<Field>, f: Field)
    ensures FieldsMap(fields + [f]) == FieldsMap(fields)[f.key := f.value]
  {
    assert (fields + [f])[..|fields|] == fields;
  }

  /** The keys of the map are exactly the keys of the members. */
  lemma {:induction false} FieldsMapKeys(fields: seq<Field>, k: string)
    ensures k in FieldsMap(fields) <==> exists i :: 0 <= i < |fields| && fields[i].key == k
    decreases |fields|
  {
    if fields != [] {
      var init := fields[..|fields| - 1];
      FieldsMapKeys(init, k);
      if k in FieldsMap(init) {
        var i :| 0 <= i < |init| && init[i].key == k;
        assert fields[i].key == k;
      }
      if exists i :: 0 <= i < |fields| && fields[i].key == k {
        var i :| 0 <= i < |fields| && fields[i].key == k;
        if i < |fields| - 1 {
          assert init[i].key == k;
        }
      }
    }
  }

  /** A member of an object, None when the key is absent. */
  function Lookup(m: map<string, Json>, key: string): Option<Json> {
    if key in m then Some(m[key]) else None
  }

  /** A Go string field: absent or null leaves it "". */
  function AsString(o: Option<Json>): Option<string> {
    match o
    case None => Some("")
    case Some(Null) => Some("")
    case Some(Str(s)) => Some(s)
    case _ => None
  }

  /** A Go bool field: absent or null leaves it false. */
  function AsBool(o: Option<Json>): Option<bool> {
    match o
    case None => Some(false)
    case Some(Null) => Some(false)
    case Some(Bool(b)) => Some(b)
    case _ => None
  }

  /** A Go integer field: absent or null leaves it 0. */
  function AsInt(o: Option<Json>): Option<int> {
    match o
    case None => Some(0)
    case Some(Null) => Some(0)
    case Some(Num(n)) => Some(n)
    case _ => None
  }

  /** A Go `*int64` field: absent or null is nil. */
  function AsOptInt(o: Option<Json>): Option<Option<int>> {
    match o
    case None => Some(None)
    case Some(Null) => Some(None)
    case Some(Num(n)) => Some(Some(n))
    case _ => None
  }

  /** A Go []string field: absent or null is the nil slice; a null element is "". */
  function AsStrings(o: Option<Json>): Option<seq<string>> {
    match o
    case None => Some([])
    case Some(Null) => Some([])
    case Some(Arr(items)) => StringItems(items)
    case _ => None
  }

  function StringItems(items: seq<Json>): (r: Option<seq<string>>)
    ensures r.Some? ==> |r.value| == |items|
    decreases |items|
  {
    if items == [] then Some([])
    else
      match (AsString(Some(items[0])), StringItems(items[1..]))
      case (Some(s), Some(ss)) => Some([s] + ss)
      case _ => None
  }

  /** How encoding/json writes a []string built by appending to a nil slice: null when empty. */
  function FromStrings(xs: seq<string>): (j: Json)
    ensures xs == [] ==> j == Null
    ensures xs != [] ==> j.Arr? && |j.items| == |xs|
  {
    if xs == [] then Null else Arr(seq(|xs|, i requires 0 <= i < |xs| => Str(xs[i])))
  }

  /** A Go `*int64` field: nil is null. */
  function FromOptInt(o: Option<int>): Json {
    match o
    case None => Null
    case Some(n) => Num(n)
  }

  lemma {:induction false} StringItemsOfStrings(xs: seq<string>)
    ensures StringItems(seq(|xs|, i requires 0 <= i < |xs| => Str(xs[i]))) == Some(xs)
    decreases |xs|
  {
    var items := seq(|xs|, i requires 0 <= i < |xs| => Str(xs[i]));
    if xs != [] {
      StringItemsOfStrings(xs[1..]);
      assert items[1..] == seq(|xs[1..]|, i requires 0 <= i < |xs[1..]| => Str(xs[1..][i]));
      assert [xs[0]] + xs[1..] == xs;
    }
  }

  /** A string list survives being written and read back. */
  lemma StringsRoundTrip(xs: seq<string>)
    ensures AsStrings(Some(FromStrings(xs))) == Some(xs)
  {
    if xs != [] {
      StringItemsOfStrings(xs);
    }
  }


  // ---------------------------------------------------------------------------
  // Round trip

  /** What may follow a value inside a document: nothing, or a separator or closing bracket. */
  predicate Delimited(rest: string) {
    rest == [] || rest[0] == ',' || rest[0] == ']' || rest[0] == '}'
  }

  lemma HexDigitValue(d: nat)
    requires d < 16
    ensures HexValue(HexDigit(d)) == Some(d)
  {
  }

  lemma UnescapeOfEscape(c: char, rest: string)
    requires |EscapeChar(c)| > 1
    ensures var e := EscapeChar(c);
      e[0] == '\\' && Unescape(e[1..] + rest) == Some((c, |e| - 1))
  {
    var e := EscapeChar(c);
    if NeedsUnicodeEscape(c) && !(c == '"' || c == '\\' || c == '\U{0008}' || c == '\U{000C}' || c == '\n' || c == '\r' || c == '\t') {
      HexDigitValue(c as int / 16);
      HexDigitValue(c as int % 16);
      var t := e[1..] + rest;
      assert t[..5] == ['u', '0', '0', HexDigit(c as int / 16), HexDigit(c as int % 16)];
    } else if !NeedsUnicodeEscape(c) && (c == '\U{2028}' || c == '\U{2029}') {
      HexDigitValue(c as int % 16);
      var t := e[1..] + rest;
      assert t[..5] == ['u', '2', '0', '2', HexDigit(c as int % 16)];
    }
  }

  lemma ParseCharsOfEscapeChar(c: char, rest: string)
    ensures ParseChars(EscapeChar(c) + rest) == match ParseChars(rest)
      case None => None
      case Some((s, r)) => Some(([c] + s, r))
  {
    var e := EscapeChar(c);
    var t := e + rest;
    if |e| > 1 {
      UnescapeOfEscape(c, rest);
      assert t[1..] == e[1..] + rest;
      assert t[1 + (|e| - 1)..] == rest;
    } else {
      assert e == [c];
      assert t[1..] == rest;
    }
  }

  lemma {:induction false} ParseCharsOfEscape(s: string, rest: string)
    ensures ParseChars(Escape(s) + "\"" + rest) == Some((s, rest))
    decreases |s|
  {
    if s == [] {
      assert Escape(s) + "\"" + rest == "\"" + rest;
    } else {
      ParseCharsOfEscape(s[1..], rest);
      assert Escape(s) + "\"" + rest == EscapeChar(s[0]) + (Escape(s[1..]) + "\"" + rest);
      ParseCharsOfEscapeChar(s[0], Escape(s[1..]) + "\"" + rest);
      assert [s[0]] + s[1..] == s;
    }
  }

  lemma QuoteRoundTrip(s: string, rest: string)
    ensures var t := Quote(s) + rest; t[0] == '"' && ParseChars(t[1..]) == Some((s, rest))
  {
    var t := Quote(s) + rest;
    assert t[1..] == Escape(s) + "\"" + rest;
    ParseCharsOfEscape(s, rest);
  }

  lemma {:induction false} DigitRunOf(d: string, rest: string)
    requires AllDigits(d)
    requires rest == [] || !IsDigit(rest[0])
    ensures DigitRun(d + rest) == |d|
    decreases |d|
  {
    if d != [] {
      var t := d[1..];
      assert AllDigits(t) by {
        forall i | 0 <= i < |t| ensures IsDigit(t[i]) {
          assert t[i] == d[i + 1];
        }
      }
      DigitRunOf(t, rest);
      assert (d + rest)[0] == d[0];
      assert (d + rest)[1..] == t + rest;
    } else {
      assert d + rest == rest;
    }
  }

  lemma DigitsRoundTrip(m: nat, rest: string)
    requires Delimited(rest)
    ensures ParseDigits(NatToDecimal(m) + rest) == Some((m, rest))
  {
    var d := NatToDecimal(m);
    var u := d + rest;
    DigitRunOf(d, rest);
    assert u[..|d|] == d;
    assert u[|d|..] == rest;
    DecimalRoundTrip(m);
  }

  lemma NumberRoundTrip(n: int, rest: string)
    requires Delimited(rest)
    ensures ParseNumber(IntToDecimal(n) + rest) == Some((Num(n), rest))
  {
    if n < 0 {
      NegativeRoundTrip(-n, rest);
      assert IntToDecimal(n) + rest == "-" + NatToDecimal(-n) + rest;
    } else {
      NaturalRoundTrip(n, rest);
    }
  }

  lemma NegativeRoundTrip(m: nat, rest: string)
    requires Delimited(rest)
    ensures ParseNumber("-" + NatToDecimal(m) + rest) == Some((Num(-(m as int)), rest))
  {
    var d := NatToDecimal(m);
    var t := "-" + d + rest;
    assert t != [] && t[0] == '-' && t[1..] == d + rest;
    DigitsRoundTrip(m, rest);
    MinusParse(t, m, rest);
  }

  lemma MinusParse(t: string, m: nat, rest: string)
    requires t != [] && t[0] == '-' && ParseDigits(t[1..]) == Some((m, rest))
    ensures ParseNumber(t) == Some((Num(-(m as int)), rest))
  {
  }

  lemma NaturalRoundTrip(m: nat, rest: string)
    requires Delimited(rest)
    ensures ParseNumber(NatToDecimal(m) + rest) == Some((Num(m), rest))
  {
    var d := NatToDecimal(m);
    DigitsRoundTrip(m, rest);
    assert IsDigit(d[0]);
    assert (d + rest)[0] == d[0];
  }

  /** Which parser ParseValue hands a token to, by its first character. */
  lemma ParseValueDispatch(t: string)
    requires t != [] && !IsWs(t[0])
    ensures t[0] == '{' ==> ParseValue(t) == ParseObject(t[1..])
    ensures t[0] == '[' ==> ParseValue(t) == ParseArray(t[1..])
    ensures t[0] == '"' ==> ParseValue(t) == match ParseChars(t[1..])
      case None => None
      case Some((str, rest)) => Some((Str(str), rest))
    ensures t[0] == '-' || IsDigit(t[0]) ==> ParseValue(t) == ParseNumber(t)
  {
    assert SkipWs(t) == t;
  }

  lemma LiteralRoundTrip(j: Json, rest: string)
    requires j.Null? || j.Bool?
    ensures ParseValue(Serialize(j) + rest) == Some((j, rest))
  {
    var t := Serialize(j) + rest;
    assert SkipWs(t) == t;
    if j.Null? {
      assert t[4..] == rest;
    } else if j.b {
      assert t[4..] == rest;
    } else {
      assert t[5..] == rest;
    }
  }

  lemma {:induction false} ValueRoundTrip(j: Json, rest: string)
    requires Delimited(rest)
    ensures ParseValue(Serialize(j) + rest) == Some((j, rest))
    decreases j, 1
  {
    var t := Serialize(j) + rest;
    match j
    case Null => LiteralRoundTrip(j, rest);
    case Bool(_) => LiteralRoundTrip(j, rest);
    case Num(n) =>
      ParseValueDispatch(t);
      NumberRoundTrip(n, rest);
    case Str(s) =>
      ParseValueDispatch(t);
      QuoteRoundTrip(s, rest);
    case Arr(items) => ArrValueRoundTrip(items, rest);
    case Obj(fields) => ObjValueRoundTrip(fields, rest);
  }

  lemma {:induction false} ArrValueRoundTrip(items: seq<Json>, rest: string)
    ensures ParseValue(Serialize(Arr(items)) + rest) == Some((Arr(items), rest))
    decreases items, 3
  {
    var t := Serialize(Arr(items)) + rest;
    ParseValueDispatch(t);
    assert t[1..] == SerializeItems(items) + "]" + rest;
    ArrayRoundTrip(items, rest);
  }

  lemma {:induction false} ObjValueRoundTrip(fields: seq<Field>, rest: string)
    ensures ParseValue(Serialize(Obj(fields)) + rest) == Some((Obj(fields), rest))
    decreases fields, 4
  {
    var t := Serialize(Obj(fields)) + rest;
    ParseValueDispatch(t);
    assert t[1..] == SerializeFields(fields) + "}" + rest;
    ObjectRoundTrip(fields, rest);
  }

  lemma SkipWsNoop(x: string)
    requires x == [] || !IsWs(x[0])
    ensures SkipWs(x) == x
  {
  }

  lemma ItemsStart(items: seq<Json>, rest: string)
    requires |items| > 0
    ensures var u := SerializeItems(items) + rest; |u| > 0 && u[0] == Serialize(items[0])[0]
  {
  }

  lemma {:induction false} ArrayRoundTrip(items: seq<Json>, rest: string)
    ensures ParseArray(SerializeItems(items) + "]" + rest) == Some((Arr(items), rest))
    decreases items, 2
  {
    if items == [] {
      EmptyArrayRoundTrip(rest);
    } else {
      ElementsRoundTrip(items, rest);
    }
  }

  lemma EmptyArrayRoundTrip(rest: string)
    ensures ParseArray(SerializeItems([]) + "]" + rest) == Some((Arr([]), rest))
  {
    var u := SerializeItems([]) + "]" + rest;
    assert u == "]" + rest;
    SkipWsNoop(u);
    assert u[1..] == rest;
  }

  lemma {:induction false} ElementsRoundTrip(items: seq<Json>, rest: string)
    requires |items| > 0
    ensures ParseArray(SerializeItems(items) + "]" + rest) == Some((Arr(items), rest))
    decreases items, 1
  {
    var u := SerializeItems(items) + "]" + rest;
    assert ParseElements(u) == Some((items, rest)) by {
      ItemsRoundTrip(items, rest);
    }
    assert SkipWs(u) == u && u != [] && u[0] != ']' by {
      ItemsStart(items, "]" + rest);
      assert u == SerializeItems(items) + ("]" + rest);
      NoCloserFirst(items[0]);
      SkipWsNoop(u);
    }
  }

  /** No value starts with a closing bracket or brace. */
  lemma NoCloserFirst(j: Json)
    ensures Serialize(j)[0] != ']' && Serialize(j)[0] != '}'
  {
    match j
    case Null =>
    case Bool(b) =>
    case Num(n) =>
    case Str(s) =>
    case Arr(items) =>
    case Obj(fields) =>
  }

  lemma {:induction false} ObjectRoundTrip(fields: seq<Field>, rest: string)
    ensures ParseObject(SerializeFields(fields) + "}" + rest) == Some((Obj(fields), rest))
    decreases fields, 3
  {
    var u := SerializeFields(fields) + "}" + rest;
    if fields == [] {
      assert u == "}" + rest;
      SkipWsNoop(u);
      assert u[1..] == rest;
    } else {
      MembersRoundTrip(fields, rest);
      assert u[0] == '"';
      SkipWsNoop(u);
    }
  }

  lemma {:induction false} ItemsRoundTrip(items: seq<Json>, rest: string)
    requires |items| > 0
    ensures ParseElements(SerializeItems(items) + "]" + rest) == Some((items, rest))
    decreases items, 0
  {
    var t := SerializeItems(items) + "]" + rest;
    if |items| == 1 {
      var r := "]" + rest;
      assert t == Serialize(items[0]) + r;
      ValueRoundTrip(items[0], r);
      SkipWsNoop(r);
      assert r[1..] == rest;
      assert [items[0]] == items;
    } else {
      var tail := SerializeItems(items[1..]) + "]" + rest;
      var r := "," + tail;
      assert t == Serialize(items[0]) + r;
      ValueRoundTrip(items[0], r);
      SkipWsNoop(r);
      assert r[1..] == tail;
      ItemsRoundTrip(items[1..], rest);
      assert [items[0]] + items[1..] == items;
    }
  }

  lemma MemberKey(key: string, r0: string)
    ensures ParseMembers(Quote(key) + r0) == ParseMemberValue(key, r0)
  {
    QuoteRoundTrip(key, r0);
    SkipWsNoop(Quote(key) + r0);
  }

  lemma {:induction false} MembersRoundTrip(fields: seq<Field>, rest: string)
    requires |fields| > 0
    ensures ParseMembers(SerializeFields(fields) + "}" + rest) == Some((fields, rest))
    decreases fields, 2
  {
    var f := fields[0];
    var after := if |fields| == 1 then "}" + rest else "," + SerializeFields(fields[1..]) + "}" + rest;
    var r0 := ":" + (Serialize(f.value) + after);
    FieldsText(fields, rest);
    MemberKey(f.key, r0);
    MemberValueRoundTrip(fields, rest);
  }

  /** The members' text is the first key, a colon, its value, then what follows it. */
  lemma FieldsText(fields: seq<Field>, rest: string)
    requires |fields| > 0
    ensures var after := if |fields| == 1 then "}" + rest else "," + SerializeFields(fields[1..]) + "}" + rest;
      SerializeFields(fields) + "}" + rest == Quote(fields[0].key) + (":" + (Serialize(fields[0].value) + after))
  {
    if |fields| == 1 {
      LastFieldText(fields, rest);
    } else {
      NextFieldText(fields, rest);
    }
  }

  lemma LastFieldText(fields: seq<Field>, rest: string)
    requires |fields| == 1
    ensures SerializeFields(fields) + "}" + rest == Quote(fields[0].key) + (":" + (Serialize(fields[0].value) + ("}" + rest)))
  {
    var q, v := Quote(fields[0].key), Serialize(fields[0].value);
    assert SerializeFields(fields) == q + ":" + v;
    Regroup(q, ":", v, "}" + rest);
  }

  lemma NextFieldText(fields: seq<Field>, rest: string)
    requires |fields| > 1
    ensures SerializeFields(fields) + "}" + rest
      == Quote(fields[0].key) + (":" + (Serialize(fields[0].value) + ("," + SerializeFields(fields[1..]) + "}" + rest)))
  {
    var q, v, t := Quote(fields[0].key), Serialize(fields[0].value), SerializeFields(fields[1..]);
    var p, c := q + ":" + v, "," + t;
    assert SerializeFields(fields) == p + c;
    calc {
      p + c + "}" + rest;
    == { Assoc(p + c, "}", rest); }
      p + c + ("}" + rest);
    == { Assoc(p, c, "}" + rest); }
      p + (c + ("}" + rest));
    == { Assoc(c, "}", rest); }
      p + (c + "}" + rest);
    == { Regroup(q, ":", v, c + "}" + rest); }
      q + (":" + (v + (c + "}" + rest)));
    }
  }

  lemma Assoc(a: string, b: string, c: string)
    ensures a + b + c == a + (b + c)
  {
  }

  lemma Regroup(a: string, b: string, c: string, d: string)
    ensures a + b + c + d == a + (b + (c + d))
  {
  }

  lemma {:induction false} MemberValueRoundTrip(fields: seq<Field>, rest: string)
    requires |fields| > 0
    ensures var after := if |fields| == 1 then "}" + rest else "," + SerializeFields(fields[1..]) + "}" + rest;
      ParseMemberValue(fields[0].key, ":" + (Serialize(fields[0].value) + after)) == Some((fields, rest))
    decreases fields, 1
  {
    if |fields| == 1 {
      LastMemberRoundTrip(fields[0], rest);
      assert [fields[0]] == fields;
    } else {
      NextMemberRoundTrip(fields, rest);
    }
  }

  /** A member's value followed by the closing brace ends the object. */
  lemma {:induction false} MemberThenClose(key: string, v: Json, rest: string)
    ensures ParseMemberValue(key, ":" + (Serialize(v) + ("}" + rest))) == Some(([Field(key, v)], rest))
    decreases v, 2
  {
    var after := "}" + rest;
    var r0 := ":" + (Serialize(v) + after);
    SkipWsNoop(r0);
    assert r0[1..] == Serialize(v) + after;
    ValueRoundTrip(v, after);
    SkipWsNoop(after);
    assert after[1..] == rest;
  }

  /** A member's value followed by a comma goes on with the members after it. */
  lemma {:induction false} MemberThenMore(key: string, v: Json, tail: string)
    ensures ParseMemberValue(key, ":" + (Serialize(v) + ("," + tail))) ==
      match ParseMembers(tail)
      case None => None
      case Some((fs, rest)) => Some(([Field(key, v)] + fs, rest))
    decreases v, 2
  {
    var after := "," + tail;
    var r0 := ":" + (Serialize(v) + after);
    SkipWsNoop(r0);
    assert r0[1..] == Serialize(v) + after;
    ValueRoundTrip(v, after);
    SkipWsNoop(after);
    assert after[1..] == tail;
  }

  /** The last member: its value, then the closing brace. */
  lemma {:induction false} LastMemberRoundTrip(f: Field, rest: string)
    ensures ParseMemberValue(f.key, ":" + (Serialize(f.value) + ("}" + rest))) == Some(([f], rest))
    decreases f, 3
  {
    MemberThenClose(f.key, f.value, rest);
  }

  /** A member followed by a comma and the others. */
  lemma {:induction false} NextMemberRoundTrip(fields: seq<Field>, rest: string)
    requires |fields| > 1
    ensures var after := "," + SerializeFields(fields[1..]) + "}" + rest;
      ParseMemberValue(fields[0].key, ":" + (Serialize(fields[0].value) + after)) == Some((fields, rest))
    decreases fields, 0
  {
    var f := fields[0];
    var t := SerializeFields(fields[1..]);
    var tail := t + "}" + rest;
    Assoc("," + t, "}", rest);
    Assoc(",", t, "}" + rest);
    Assoc(t, "}", rest);
    MemberThenMore(f.key, f.value, tail);
    MembersRoundTrip(fields[1..], rest);
    assert [f] + fields[1..] == fields;
  }

  /** json.Unmarshal reads back what the serializer wrote. */
  lemma RoundTrip(j: Json)
    ensures Parse(Serialize(j)) == Some(j)
  {
    ValueRoundTrip(j, "");
    assert Serialize(j) + "" == Serialize(j);
  }

  lemma SerializeInjective(a: Json, b: Json)
    requires Serialize(a) == Serialize(b)
    ensures a == b
  {
    RoundTrip(a);
    RoundTrip(b);
  }

  // ---------------------------------------------------------------------------
  // Byte strings in, byte string out

  /** Every string and key in the value is a byte string. */
  predicate ByteJson(j: Json)
    decreases j, 1
  {
    match j
    case Str(s) => IsByteString(s)
    case Arr(items) => ByteItems(items)
    case Obj(fields) => ByteFields(fields)
    case _ => true
  }

  predicate ByteItems(items: seq<Json>)
    decreases items, 0
  {
    forall i :: 0 <= i < |items| ==> ByteJson(items[i])
  }

  predicate ByteFields(fields: seq<Field>)
    decreases fields, 0
  {
    forall i :: 0 <= i < |fields| ==> IsByteString(fields[i].key) && ByteJson(fields[i].value)
  }

  lemma {:induction false} EscapeBytes(s: string)
    requires IsByteString(s)
    ensures IsByteString(Escape(s))
    decreases |s|
  {
    if s != [] {
      EscapeBytes(s[1..]);
      assert s[0] as int < 256;
    }
  }

  lemma DecimalBytes(n: int)
    ensures IsByteString(IntToDecimal(n))
  {
    var d := IntToDecimal(n);
    forall i | 0 <= i < |d| ensures d[i] as int < 256 {
      if n < 0 {
        assert i == 0 || d[i] == NatToDecimal(-n)[i - 1];
      }
    }
  }

  /** A value whose strings are all byte strings serializes to a byte string. */
  lemma {:induction false} SerializeBytes(j: Json)
    requires ByteJson(j)
    ensures IsByteString(Serialize(j))
    decreases j, 1
  {
    match j
    case Null =>
    case Bool(b) =>
    case Num(n) => DecimalBytes(n);
    case Str(s) =>
      EscapeBytes(s);
      assert Serialize(j) == "\"" + Escape(s) + "\"";
      BytesConcat("\"", Escape(s));
      BytesConcat("\"" + Escape(s), "\"");
    case Arr(items) =>
      SerializeItemsBytes(items);
      assert Serialize(j) == "[" + SerializeItems(items) + "]";
      BytesConcat("[", SerializeItems(items));
      BytesConcat("[" + SerializeItems(items), "]");
    case Obj(fields) =>
      SerializeFieldsBytes(fields);
      assert Serialize(j) == "{" + SerializeFields(fields) + "}";
      BytesConcat("{", SerializeFields(fields));
      BytesConcat("{" + SerializeFields(fields), "}");
  }

  lemma {:induction false} SerializeItemsBytes(items: seq<Json>)
    requires ByteItems(items)
    ensures IsByteString(SerializeItems(items))
    decreases items, 0
  {
    if items != [] {
      SerializeBytes(items[0]);
      if |items| > 1 {
        assert ByteItems(items[1..]) by {
          forall i | 0 <= i < |items[1..]| ensures ByteJson(items[1..][i]) {
            assert items[1..][i] == items[i + 1];
          }
        }
        SerializeItemsBytes(items[1..]);
      }
    }
  }

  lemma {:induction false} SerializeFieldsBytes(fields: seq<Field>)
    requires ByteFields(fields)
    ensures IsByteString(SerializeFields(fields))
    decreases fields, 0
  {
    if fields != [] {
      var key, value := fields[0].key, fields[0].value;
      EscapeBytes(key);
      SerializeBytes(value);
      BytesConcat("\"", Escape(key));
      BytesConcat("\"" + Escape(key), "\"");
      assert Quote(key) == "\"" + Escape(key) + "\"";
      BytesConcat(Quote(key), ":");
      BytesConcat(Quote(key) + ":", Serialize(value));
      var head := Quote(key) + ":" + Serialize(value);
      if |fields| == 1 {
        assert SerializeFields(fields) == head + "";
        BytesConcat(head, "");
      } else {
        assert ByteFields(fields[1..]) by {
          forall i | 0 <= i < |fields[1..]|
            ensures IsByteString(fields[1..][i].key) && ByteJson(fields[1..][i].value)
          {
            assert fields[1..][i] == fields[i + 1];
          }
        }
        SerializeFieldsBytes(fields[1..]);
        BytesConcat(",", SerializeFields(fields[1..]));
        assert SerializeFields(fields) == head + ("," + SerializeFields(fields[1..]));
        BytesConcat(head, "," + SerializeFields(fields[1..]));
      }
    }
  }

  // ---------------------------------------------------------------------------
  // Documents that are not objects

  predicate IsHexOrDash(c: char) {
    '0' <= c <= '9' || 'a' <= c <= 'f' || 'A' <= c <= 'F' || c == '-'
  }

  /**
   * A document made only of hexadecimal digits and dashes (a UUID, say) is never an object
   * and never null: it is a number or it does not parse at all.
   */
  lemma HexDocumentIsNoObject(s: string)
    requires forall i :: 0 <= i < |s| ==> IsHexOrDash(s[i])
    ensures Parse(s).None? || Parse(s).value.Num?
  {
    if s != [] {
      assert SkipWs(s) == s;
      if |s| >= 3 {
        assert IsHexOrDash(s[2]);
      }
    }
  }
}
