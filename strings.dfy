/** The parts of Go's `strings`, `strconv` and `html` packages that the core relies on. */
module Strs {
  import opened Base

  // ---------------------------------------------------------------------------
  // Splitting on a one-character separator (strings.Split, strings.SplitN(s, sep, 2))

  /** Index of the first occurrence of `c` in `s`. */
  function IndexOf(s: string, c: char): (i: nat)
    requires c in s
    ensures i < |s| && s[i] == c && c !in s[..i]
  {
    if s[0] == c then 0 else 1 + IndexOf(s[1..], c)
  }

  /** strings.Split(s, string(sep)): the pieces between separators; never empty. */
  function Split(s: string, sep: char): (parts: seq<string>)
    ensures |parts| >= 1
    ensures forall k :: 0 <= k < |parts| ==> sep !in parts[k]
    decreases |s|
  {
    if sep !in s then [s]
    else
      var i := IndexOf(s, sep);
      [s[..i]] + Split(s[i + 1..], sep)
  }

  /** strings.Join(parts, sep): the reference definition Split is checked against. */
  function Join(parts: seq<string>, sep: string): string
  {
    if |parts| == 0 then ""
    else if |parts| == 1 then parts[0]
    else parts[0] + sep + Join(parts[1..], sep)
  }

  /** Joining the pieces of a split with the separator gives back the original string. */
  lemma {:induction false} JoinSplit(s: string, sep: char)
    ensures Join(Split(s, sep), [sep]) == s
    decreases |s|
  {
    if sep in s {
      var i := IndexOf(s, sep);
      JoinSplit(s[i + 1..], sep);
      JoinCons(s[..i], Split(s[i + 1..], sep), [sep]);
      CutAt(s, i);
    }
  }

  lemma CutAt(s: string, i: nat)
    requires i < |s|
    ensures s[..i] + [s[i]] + s[i + 1..] == s
  {
  }

  /** Splitting a join of separator-free pieces gives back the pieces. */
  lemma {:induction false} SplitJoin(parts: seq<string>, sep: char)
    requires |parts| >= 1
    requires forall k :: 0 <= k < |parts| ==> sep !in parts[k]
    ensures Split(Join(parts, [sep]), sep) == parts
    decreases |parts|
  {
    if |parts| > 1 {
      var tail := Join(parts[1..], [sep]);
      var s := parts[0] + [sep] + tail;
      assert Join(parts, [sep]) == s;
      assert s[|parts[0]|] == sep;
      assert sep in s;
      SplitAtFirst(parts[0], sep, tail);
      SplitJoin(parts[1..], sep);
      assert parts == [parts[0]] + parts[1..];
    } else {
      assert Join(parts, [sep]) == parts[0];
    }
  }

  lemma {:induction false} IndexOfAfter(a: string, c: char, b: string)
    requires c !in a
    ensures c in a + [c] + b && IndexOf(a + [c] + b, c) == |a|
    decreases |a|
  {
    assert (a + [c] + b)[|a|] == c;
    if a != [] {
      assert (a + [c] + b)[1..] == a[1..] + [c] + b;
      IndexOfAfter(a[1..], c, b);
    }
  }

  /** Splitting `a + sep + b`, where `a` holds no separator, yields `a` and then the pieces of `b`. */
  lemma SplitAtFirst(a: string, sep: char, b: string)
    requires sep !in a
    ensures Split(a + [sep] + b, sep) == [a] + Split(b, sep)
  {
    var s := a + [sep] + b;
    IndexOfAfter(a, sep, b);
    assert s[..|a|] == a;
    assert s[|a| + 1..] == b;
  }

  /** strings.SplitN(s, string(sep), 2) when it yields two parts: cut at the first separator. */
  function Cut(s: string, sep: char): (r: Option<(string, string)>)
    ensures r.None? <==> sep !in s
    ensures r.Some? ==> s == r.value.0 + [sep] + r.value.1 && sep !in r.value.0
  {
    if sep in s then
      var i := IndexOf(s, sep);
      assert s == s[..i] + [sep] + s[i + 1..];
      Some((s[..i], s[i + 1..]))
    else None
  }

  lemma SeparatorAt(a: string, sep: char, d: string)
    ensures (a + [sep] + d)[|a|] == sep
  {
  }

  /** Two texts ending in a separator and a part without it end in the same part and agree before it. */
  lemma LastSeparator(a: string, d: string, b: string, e: string, sep: char)
    requires sep !in d && sep !in e
    requires a + [sep] + d == b + [sep] + e
    ensures a == b && d == e
  {
    var s := a + [sep] + d;
    if |d| < |e| {
      SeparatorAt(a, sep, d);
      assert false;
    } else if |d| > |e| {
      SeparatorAt(b, sep, e);
      assert false;
    } else {
      assert d == s[|s| - |d|..] && e == (b + [sep] + e)[|s| - |e|..];
      assert a == s[..|a|] && b == (b + [sep] + e)[..|b|];
    }
  }

  // ---------------------------------------------------------------------------
  // Prefixes and suffixes

  predicate HasPrefix(s: string, p: string) {
    |p| <= |s| && s[..|p|] == p
  }

  /** strings.HasSuffix */
  predicate HasSuffix(s: string, suf: string) {
    |suf| <= |s| && s[|s| - |suf|..] == suf
  }

  /** Lexicographic order on code points, the order of Go's string comparison and sort.Strings. */
  predicate LexLess(a: string, b: string)
    decreases |a|
  {
    b != [] && (a == [] || a[0] < b[0] || (a[0] == b[0] && LexLess(a[1..], b[1..])))
  }

  // ---------------------------------------------------------------------------
  // Replacing a character (strings.ReplaceAll with a one-character target string)

  function ReplaceChar(s: string, target: char, repl: string): string
  {
    if s == [] then ""
    else (if s[0] == target then repl else [s[0]]) + ReplaceChar(s[1..], target, repl)
  }

  /** Replacing every `target` by `repl` is splitting on `target` and joining with `repl`. */
  lemma {:induction false} ReplaceCharIsSplitJoin(s: string, target: char, repl: string)
    ensures ReplaceChar(s, target, repl) == Join(Split(s, target), repl)
    decreases |s|
  {
    if target !in s {
      NoTargetReplaceIdentity(s, target, repl);
    } else {
      var i := IndexOf(s, target);
      var a, b := s[..i], s[i + 1..];
      assert s == a + ([target] + b);
      calc {
        ReplaceChar(s, target, repl);
      == { ReplaceCharAppend(a, [target] + b, target, repl); }
        ReplaceChar(a, target, repl) + ReplaceChar([target] + b, target, repl);
      == { ReplaceCharCons(target, b, repl); NoTargetReplaceIdentity(a, target, repl); }
        a + (repl + ReplaceChar(b, target, repl));
      == { ReplaceCharIsSplitJoin(b, target, repl); }
        a + (repl + Join(Split(b, target), repl));
      == { JoinCons(a, Split(b, target), repl); }
        Join([a] + Split(b, target), repl);
      }
    }
  }

  lemma ReplaceCharCons(target: char, b: string, repl: string)
    ensures ReplaceChar([target] + b, target, repl) == repl + ReplaceChar(b, target, repl)
  {
    assert ([target] + b)[1..] == b;
  }

  lemma JoinCons(a: string, ps: seq<string>, sep: string)
    requires |ps| >= 1
    ensures Join([a] + ps, sep) == a + (sep + Join(ps, sep))
  {
    assert ([a] + ps)[1..] == ps;
  }

  lemma {:induction false} NoTargetReplaceIdentity(s: string, target: char, repl: string)
    requires target !in s
    ensures ReplaceChar(s, target, repl) == s
    decreases |s|
  {
    if s != [] {
      NoTargetReplaceIdentity(s[1..], target, repl);
      assert s == [s[0]] + s[1..];
    }
  }

  lemma {:induction false} ReplaceCharAppend(a: string, b: string, target: char, repl: string)
    ensures ReplaceChar(a + b, target, repl) == ReplaceChar(a, target, repl) + ReplaceChar(b, target, repl)
    decreases |a|
  {
    if a != [] {
      assert (a + b)[1..] == a[1..] + b;
      ReplaceCharAppend(a[1..], b, target, repl);
    } else {
      assert a + b == b;
    }
  }

  // ---------------------------------------------------------------------------
  // ASCII lower-casing (strings.ToLower on ASCII text)

  function LowerChar(c: char): char {
    if 'A' <= c <= 'Z' then (c as int + 32) as char else c
  }

  function ToLower(s: string): (r: string)
    ensures |r| == |s|
    ensures forall i :: 0 <= i < |s| ==> r[i] == LowerChar(s[i])
  {
    seq(|s|, i requires 0 <= i < |s| => LowerChar(s[i]))
  }

  lemma ToLowerIdempotent(s: string)
    ensures ToLower(ToLower(s)) == ToLower(s)
    ensures forall i :: 0 <= i < |s| ==> !('A' <= ToLower(s)[i] <= 'Z')
  {
  }

  // ---------------------------------------------------------------------------
  // strings.TrimSpace, with unicode.IsSpace

  predicate IsSpace(c: char) {
    c == '\t' || c == '\n' || c == '\U{000B}' || c == '\U{000C}' || c == '\r' || c == ' '
    || c == '\U{0085}' || c == '\U{00A0}' || c == '\U{1680}'
    || ('\U{2000}' <= c <= '\U{200A}') || c == '\U{2028}' || c == '\U{2029}'
    || c == '\U{202F}' || c == '\U{205F}' || c == '\U{3000}'
  }

  /** Index of the first character at or after `i` that is not white space (or |s|). */
  function SkipSpaces(s: string, i: nat): (j: nat)
    requires i <= |s|
    ensures i <= j <= |s|
    ensures forall k :: i <= k < j ==> IsSpace(s[k])
    ensures j < |s| ==> !IsSpace(s[j])
    decreases |s| - i
  {
    if i < |s| && IsSpace(s[i]) then SkipSpaces(s, i + 1) else i
  }

  /** Index just past the last character before `j`, and not before `i`, that is not white space (or i). */
  function SkipSpacesBack(s: string, i: nat, j: nat): (e: nat)
    requires i <= j <= |s|
    ensures i <= e <= j
    ensures forall k :: e <= k < j ==> IsSpace(s[k])
    ensures e > i ==> !IsSpace(s[e - 1])
    decreases j
  {
    if j > i && IsSpace(s[j - 1]) then SkipSpacesBack(s, i, j - 1) else j
  }

  function TrimStart(s: string): (i: nat)
    ensures i <= |s|
    ensures forall k :: 0 <= k < i ==> IsSpace(s[k])
    ensures i < |s| ==> !IsSpace(s[i])
  {
    SkipSpaces(s, 0)
  }

  function TrimEnd(s: string): (j: nat)
    ensures TrimStart(s) <= j <= |s|
    ensures forall k :: j <= k < |s| ==> IsSpace(s[k])
    ensures j > TrimStart(s) ==> !IsSpace(s[j - 1])
  {
    SkipSpacesBack(s, TrimStart(s), |s|)
  }

  /**
   * strings.TrimSpace: an infix of `s` that neither starts nor ends with white space, and
   * everything cut off before and after it is white space.
   */
  function TrimSpace(s: string): (r: string)
    ensures r != [] ==> !IsSpace(r[0]) && !IsSpace(r[|r| - 1])
    ensures exists i :: CutAround(s, i, r)
  {
    var i, j := TrimStart(s), TrimEnd(s);
    assert CutAround(s, i, s[i..j]);
    s[i..j]
  }

  /** `r` sits in `s` at `i`, and everything around it is white space. */
  predicate CutAround(s: string, i: int, r: string) {
    0 <= i <= |s| - |r| && s[i..i + |r|] == r
    && (forall k :: 0 <= k < i ==> IsSpace(s[k])) && (forall k :: i + |r| <= k < |s| ==> IsSpace(s[k]))
  }

  lemma TrimSpaceIdempotent(s: string)
    ensures TrimSpace(TrimSpace(s)) == TrimSpace(s)
  {
    var r := TrimSpace(s);
    if r != [] {
      assert TrimStart(r) == 0;
      assert TrimEnd(r) == |r|;
    } else {
      assert TrimSpace(r) == [];
    }
  }

  /** TrimSpace cuts exactly the white-space borders `p` and `q` off a text without white space at its ends. */
  lemma TrimSpaceFrame(p: string, m: string, q: string)
    requires forall k :: 0 <= k < |p| ==> IsSpace(p[k])
    requires forall k :: 0 <= k < |q| ==> IsSpace(q[k])
    requires m != [] ==> !IsSpace(m[0]) && !IsSpace(m[|m| - 1])
    ensures TrimSpace(p + m + q) == m
  {
    var s := p + m + q;
    var i := TrimStart(s);
    var j := TrimEnd(s);
    if m == [] {
      assert forall k :: 0 <= k < |s| ==> IsSpace(s[k]) by {
        forall k | 0 <= k < |s| ensures IsSpace(s[k]) {
          if k >= |p| { assert s[k] == q[k - |p|]; }
        }
      }
      assert i == |s|;
    } else {
      assert s[|p|] == m[0];
      assert s[|p| + |m| - 1] == m[|m| - 1];
      assert i == |p|;
      assert j == |p| + |m|;
      assert s[i..j] == m;
    }
  }

  // ---------------------------------------------------------------------------
  // html.EscapeString and its inverse for the five escaped characters

  function EscapeChar(c: char): string {
    match c
    case '<' => "&lt;"
    case '>' => "&gt;"
    case '&' => "&amp;"
    case '\'' => "&#39;"
    case '"' => "&#34;"
    case _ => [c]
  }

  predicate IsHtmlSpecial(c: char) {
    c == '<' || c == '>' || c == '&' || c == '\'' || c == '"'
  }

  /** html.EscapeString */
  function EscapeHtml(s: string): string
  {
    if s == [] then "" else EscapeChar(s[0]) + EscapeHtml(s[1..])
  }

  /** html.UnescapeString restricted to the five entities EscapeHtml produces. */
  function UnescapeHtml(t: string): string
    decreases |t|
  {
    if t == [] then ""
    else if t[0] != '&' then [t[0]] + UnescapeHtml(t[1..])
    else if HasPrefix(t, "&lt;") then "<" + UnescapeHtml(t[4..])
    else if HasPrefix(t, "&gt;") then ">" + UnescapeHtml(t[4..])
    else if HasPrefix(t, "&amp;") then "&" + UnescapeHtml(t[5..])
    else if HasPrefix(t, "&#39;") then "'" + UnescapeHtml(t[5..])
    else if HasPrefix(t, "&#34;") then "\"" + UnescapeHtml(t[5..])
    else "&" + UnescapeHtml(t[1..])
  }

  lemma {:induction false} EscapeHtmlAppend(a: string, b: string)
    ensures EscapeHtml(a + b) == EscapeHtml(a) + EscapeHtml(b)
    decreases |a|
  {
    if a != [] {
      assert (a + b)[1..] == a[1..] + b;
      EscapeHtmlAppend(a[1..], b);
      assert EscapeHtml(a + b) == EscapeChar(a[0]) + EscapeHtml(a[1..] + b);
    } else {
      assert a + b == b;
    }
  }

  /** Escaping leaves a text with no special characters as it is. */
  lemma {:induction false} EscapePlain(s: string)
    requires forall k :: 0 <= k < |s| ==> !IsHtmlSpecial(s[k])
    ensures EscapeHtml(s) == s
    decreases |s|
  {
    if s != [] {
      EscapePlain(s[1..]);
      assert s == [s[0]] + s[1..];
    }
  }

  /** An escaped text starts and ends with white space exactly when the text does. */
  lemma EscapeEnds(s: string)
    requires s != []
    ensures EscapeHtml(s) != []
    ensures IsSpace(EscapeHtml(s)[0]) <==> IsSpace(s[0])
    ensures IsSpace(EscapeHtml(s)[|EscapeHtml(s)| - 1]) <==> IsSpace(s[|s| - 1])
  {
    EscapeFirst(s);
    EscapeLast(s);
  }

  lemma EscapeFirst(s: string)
    requires s != []
    ensures EscapeHtml(s) != [] && (IsSpace(EscapeHtml(s)[0]) <==> IsSpace(s[0]))
  {
    var x, y := EscapeChar(s[0]), EscapeHtml(s[1..]);
    EscapeCharEnds(s[0]);
    assert EscapeHtml(s) == x + y;
    assert (x + y)[0] == x[0];
  }

  lemma EscapeLast(s: string)
    requires s != []
    ensures EscapeHtml(s) != [] && (IsSpace(EscapeHtml(s)[|EscapeHtml(s)| - 1]) <==> IsSpace(s[|s| - 1]))
  {
    var init, last := s[..|s| - 1], s[|s| - 1];
    assert s == init + [last];
    EscapeHtmlAppend(init, [last]);
    var x, y := EscapeHtml(init), EscapeChar(last);
    assert EscapeHtml([last]) == y;
    EscapeCharEnds(last);
    assert EscapeHtml(s) == x + y;
    assert (x + y)[|x + y| - 1] == y[|y| - 1];
  }

  lemma EscapeCharEnds(c: char)
    ensures var e := EscapeChar(c);
      e != [] && (IsSpace(e[0]) <==> IsSpace(c)) && (IsSpace(e[|e| - 1]) <==> IsSpace(c))
  {
  }

  /** Unescaping undoes escaping: no information is lost by EscapeHtml. */
  lemma {:induction false} EscapeRoundTrip(s: string)
    ensures UnescapeHtml(EscapeHtml(s)) == s
    decreases |s|
  {
    if s != [] {
      EscapeRoundTrip(s[1..]);
      UnescapeEscapedChar(s[0], EscapeHtml(s[1..]));
      assert s == [s[0]] + s[1..];
    }
  }

  lemma UnescapeEscapedChar(c: char, rest: string)
    ensures UnescapeHtml(EscapeChar(c) + rest) == [c] + UnescapeHtml(rest)
  {
    var t := EscapeChar(c) + rest;
    assert t[|EscapeChar(c)|..] == rest;
    if c == '<' {
      assert HasPrefix(t, "&lt;");
    } else if c == '>' {
      assert !HasPrefix(t, "&lt;") by { assert t[1] == 'g'; }
      assert HasPrefix(t, "&gt;");
    } else if c == '&' {
      assert !HasPrefix(t, "&lt;") && !HasPrefix(t, "&gt;") by { assert t[1] == 'a'; }
      assert HasPrefix(t, "&amp;");
    } else if c == '\'' {
      assert !HasPrefix(t, "&lt;") && !HasPrefix(t, "&gt;") && !HasPrefix(t, "&amp;") by { assert t[1] == '#'; }
      assert HasPrefix(t, "&#39;");
    } else if c == '"' {
      assert !HasPrefix(t, "&lt;") && !HasPrefix(t, "&gt;") && !HasPrefix(t, "&amp;") by { assert t[1] == '#'; }
      assert !HasPrefix(t, "&#39;") by { assert t[2] == '3' && t[3] == '4'; }
      assert HasPrefix(t, "&#34;");
    } else {
      assert t[0] == c && t[1..] == rest;
    }
  }

  /** The escaped text holds none of the characters that are special in HTML, except '&' opening an entity. */
  lemma {:induction false} EscapeHasNoMarkup(s: string)
    ensures forall k :: 0 <= k < |EscapeHtml(s)| ==> !IsHtmlSpecial(EscapeHtml(s)[k]) || EscapeHtml(s)[k] == '&'
    decreases |s|
  {
    if s != [] {
      EscapeHasNoMarkup(s[1..]);
      var e := EscapeChar(s[0]);
      var rest := EscapeHtml(s[1..]);
      assert EscapeHtml(s) == e + rest;
      forall k | 0 <= k < |e + rest| ensures !IsHtmlSpecial((e + rest)[k]) || (e + rest)[k] == '&' {
        if k >= |e| { assert (e + rest)[k] == rest[k - |e|]; }
      }
    }
  }

  // ---------------------------------------------------------------------------
  // Decimal numbers (strconv.Itoa, fmt's %d, strconv.Atoi)

  predicate IsDigit(c: char) { '0' <= c <= '9' }

  function DigitChar(d: nat): (c: char)
    requires d < 10
    ensures IsDigit(c)
  {
    ('0' as int + d) as char
  }

  function DigitValue(c: char): (d: nat)
    requires IsDigit(c)
    ensures d < 10 && DigitChar(d) == c
  {
    c as int - '0' as int
  }

  predicate AllDigits(s: string) {
    forall i :: 0 <= i < |s| ==> IsDigit(s[i])
  }

  /** The decimal digits of `n`, most significant first, without leading zeros. */
  function NatToDecimal(n: nat): (s: string)
    ensures 1 <= |s| && AllDigits(s)
    ensures |s| > 1 ==> s[0] != '0'
    decreases n
  {
    if n < 10 then [DigitChar(n)]
    else
      var s := NatToDecimal(n / 10) + [DigitChar(n % 10)];
      assert s[0] == NatToDecimal(n / 10)[0];
      s
  }

  /** The number a digit string denotes. */
  function DecimalValue(s: string): nat
    requires AllDigits(s)
    decreases |s|
  {
    if s == [] then 0 else DecimalValue(s[..|s| - 1]) * 10 + DigitValue(s[|s| - 1])
  }

  lemma {:induction false} DecimalRoundTrip(n: nat)
    ensures DecimalValue(NatToDecimal(n)) == n
    decreases n
  {
    if n >= 10 {
      DecimalRoundTrip(n / 10);
      var s := NatToDecimal(n / 10) + [DigitChar(n % 10)];
      assert s[..|s| - 1] == NatToDecimal(n / 10);
    }
  }

  /** strconv.Itoa / fmt "%d" */
  function IntToDecimal(i: int): (s: string)
    ensures |s| >= 1
    ensures forall k :: 0 <= k < |s| ==> IsDigit(s[k]) || s[k] == '-'
  {
    if i < 0 then "-" + NatToDecimal(-i) else NatToDecimal(i)
  }

  lemma IntToDecimalInjective(i: int, j: int)
    requires IntToDecimal(i) == IntToDecimal(j)
    ensures i == j
  {
    DecimalSign(i);
    DecimalSign(j);
    if i < 0 {
      DecimalRoundTrip(-i);
      DecimalRoundTrip(-j);
    } else {
      DecimalRoundTrip(i);
      DecimalRoundTrip(j);
    }
  }

  /** A decimal starts with '-' exactly for a negative number, and the digits after it are the magnitude's. */
  lemma DecimalSign(i: int)
    ensures IntToDecimal(i)[0] == '-' <==> i < 0
    ensures i < 0 ==> IntToDecimal(i)[1..] == NatToDecimal(-i)
    ensures i >= 0 ==> IntToDecimal(i) == NatToDecimal(i)
  {
    if i >= 0 {
      assert IsDigit(NatToDecimal(i)[0]);
    }
  }

  const MinInt64: int := -0x8000_0000_0000_0000
  const MaxInt64: int := 0x7fff_ffff_ffff_ffff

  /** strconv.Atoi on a 64-bit platform: optional sign, then one or more decimal digits, in the int64 range. */
  function Atoi(s: string): (r: Option<int>)
    ensures r.Some? ==> MinInt64 <= r.value <= MaxInt64
  {
    if |s| > 0 && (s[0] == '+' || s[0] == '-') then
      var ds := s[1..];
      if |ds| > 0 && AllDigits(ds) then
        var v: int := if s[0] == '-' then -(DecimalValue(ds) as int) else DecimalValue(ds);
        if MinInt64 <= v <= MaxInt64 then Some(v) else None
      else None
    else if |s| > 0 && AllDigits(s) then
      var v := DecimalValue(s);
      if v <= MaxInt64 then Some(v) else None
    else None
  }

  /** Every int64 printed in decimal is read back by Atoi. */
  lemma AtoiRoundTrip(i: int)
    requires MinInt64 <= i <= MaxInt64
    ensures Atoi(IntToDecimal(i)) == Some(i)
  {
    if i < 0 {
      var d := NatToDecimal(-i);
      DecimalRoundTrip(-i);
      NegativeDecimalAtoi(d);
    } else {
      var d := NatToDecimal(i);
      assert IsDigit(d[0]);
      DecimalRoundTrip(i);
    }
  }

  lemma NegativeDecimalAtoi(d: string)
    requires |d| > 0 && AllDigits(d) && DecimalValue(d) <= -MinInt64
    ensures Atoi("-" + d) == Some(-(DecimalValue(d) as int))
  {
    var s := "-" + d;
    assert s[0] == '-' && s[1..] == d;
  }

  // ---------------------------------------------------------------------------
  // Hexadecimal (encoding/hex.EncodeToString)

  predicate IsLowerHex(c: char) { '0' <= c <= '9' || 'a' <= c <= 'f' }

  function HexDigit(d: nat): (c: char)
    requires d < 16
    ensures IsLowerHex(c)
  {
    if d < 10 then ('0' as int + d) as char else ('a' as int + d - 10) as char
  }

  function HexDigitValue(c: char): (d: nat)
    requires IsLowerHex(c)
    ensures d < 16 && HexDigit(d) == c
  {
    if c <= '9' then c as int - '0' as int else c as int - 'a' as int + 10
  }

  /** Two lower-case hexadecimal digits per octet, high nibble first. */
  function Hex(b: seq<byte>): (s: string)
    ensures |s| == 2 * |b|
    ensures forall i :: 0 <= i < |s| ==> IsLowerHex(s[i])
  {
    if b == [] then [] else [HexDigit(b[0] as int / 16), HexDigit(b[0] as int % 16)] + Hex(b[1..])
  }

  /** encoding/hex.DecodeString restricted to lower-case digits. */
  function Unhex(s: string): (b: Option<seq<byte>>)
    decreases |s|
  {
    if s == [] then Some([])
    else if |s| >= 2 && IsLowerHex(s[0]) && IsLowerHex(s[1]) then
      match Unhex(s[2..])
      case None => None
      case Some(rest) => Some([(HexDigitValue(s[0]) * 16 + HexDigitValue(s[1])) as byte] + rest)
    else None
  }

  lemma {:induction false} HexRoundTrip(b: seq<byte>)
    ensures Unhex(Hex(b)) == Some(b)
  {
    if b != [] {
      HexRoundTrip(b[1..]);
      var s := Hex(b);
      assert s[2..] == Hex(b[1..]);
      assert HexDigitValue(s[0]) == b[0] as int / 16;
      assert HexDigitValue(s[1]) == b[0] as int % 16;
      assert (HexDigitValue(s[0]) * 16 + HexDigitValue(s[1])) as byte == b[0];
      assert [b[0]] + b[1..] == b;
    }
  }

  /** Different octets give different hex strings, so hex tokens made from distinct random octets differ. */
  lemma HexInjective(a: seq<byte>, b: seq<byte>)
    requires Hex(a) == Hex(b)
    ensures a == b
  {
    HexRoundTrip(a);
    HexRoundTrip(b);
  }
}
