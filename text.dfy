/**
 * The JavaScript string primitives the ingestion pipeline relies on, written out:
 * `String.prototype.trim`, an ASCII `toLowerCase`, the `/[^a-z0-9_]/g` replace,
 * `Array.prototype.join`, `String.prototype.split` on one character, and the
 * global `parseInt` with no radix.
 */
module Text {
  import opened Wrappers

  // ---------------------------------------------------------------- trim

  /** The WhiteSpace and LineTerminator code points of ECMAScript, which `trim` removes:
      tab to carriage return, space, no-break space, the Unicode space separators, the
      line and paragraph separators, and the byte order mark. */
  predicate IsSpace(c: char) {
    ('\t' <= c <= '\r') || c == ' ' || c == '\U{00A0}' || c == '\U{1680}' ||
    ('\U{2000}' <= c <= '\U{200A}') || c == '\U{2028}' || c == '\U{2029}' ||
    c == '\U{202F}' || c == '\U{205F}' || c == '\U{3000}' || c == '\U{FEFF}'
  }

  ghost predicate AllSpace(s: string) {
    forall i :: 0 <= i < |s| ==> IsSpace(s[i])
  }

  /** A string that `trim` leaves alone: empty, or neither end is white space. */
  ghost predicate Trimmed(s: string) {
    s == [] || (!IsSpace(s[0]) && !IsSpace(s[|s| - 1]))
  }

  /** `s.trimStart()`: `s` without its leading white space; a suffix of `s`. */
  function TrimStart(s: string): (r: string)
    ensures r == [] || !IsSpace(r[0])
    ensures |r| <= |s| && r == s[|s| - |r|..]
  {
    if s != [] && IsSpace(s[0]) then TrimStart(s[1..]) else s
  }

  /** `s.trimEnd()`: `s` without its trailing white space; a prefix of `s`. */
  function TrimEnd(s: string): (r: string)
    ensures r == [] || !IsSpace(r[|r| - 1])
    ensures |r| <= |s| && r == s[..|r|]
  {
    if s != [] && IsSpace(s[|s| - 1]) then TrimEnd(s[..|s| - 1]) else s
  }

  /** `s.trim()`: `s` with white space cut from both ends. */
  function Trim(s: string): (r: string)
    ensures Trimmed(r)
  {
    var t := TrimStart(s);
    var r := TrimEnd(t);
    assert r != [] ==> r[0] == t[0];
    r
  }

  /** Leading white space is skipped whatever follows it. */
  lemma {:induction false} TrimStartSkips(lead: string, s: string)
    requires AllSpace(lead)
    ensures TrimStart(lead + s) == TrimStart(s)
  {
    if lead == [] {
      assert lead + s == s;
    } else {
      assert (lead + s)[0] == lead[0];
      assert (lead + s)[1..] == lead[1..] + s;
      TrimStartSkips(lead[1..], s);
    }
  }

  /** Trailing white space is skipped whatever precedes it. */
  lemma {:induction false} TrimEndSkips(s: string, trail: string)
    requires AllSpace(trail)
    ensures TrimEnd(s + trail) == TrimEnd(s)
    decreases |trail|
  {
    if trail == [] {
      assert s + trail == s;
    } else {
      var u := s + trail;
      assert u[|u| - 1] == trail[|trail| - 1];
      assert u[..|u| - 1] == s + trail[..|trail| - 1];
      TrimEndSkips(s, trail[..|trail| - 1]);
    }
  }

  /** Once a non-space character is reached, whatever follows is kept. */
  lemma {:induction false} TrimStartAppend(s: string, t: string)
    requires TrimStart(s) != []
    ensures TrimStart(s + t) == TrimStart(s) + t
  {
    assert s != [];
    assert (s + t)[0] == s[0];
    if IsSpace(s[0]) {
      assert (s + t)[1..] == s[1..] + t;
      TrimStartAppend(s[1..], t);
    }
  }

  /** A non-empty string is blank exactly when its head is white space and its tail is blank. */
  lemma AllSpaceCons(s: string)
    requires s != []
    ensures AllSpace(s) <==> IsSpace(s[0]) && AllSpace(s[1..])
  {
    var u := s[1..];
    if IsSpace(s[0]) && AllSpace(u) {
      forall i | 1 <= i < |s| ensures IsSpace(s[i]) {
        assert s[i] == u[i - 1];
      }
    }
    if AllSpace(s) {
      forall i | 0 <= i < |u| ensures IsSpace(u[i]) {
        assert u[i] == s[i + 1];
      }
    }
  }

  /** `trimStart` gives the empty string exactly for blank input. */
  lemma {:induction false} TrimStartEmptyIff(s: string)
    ensures TrimStart(s) == [] <==> AllSpace(s)
  {
    if s != [] {
      AllSpaceCons(s);
      TrimStartEmptyIff(s[1..]);
    }
  }

  /** White space added around any string is cut away again by `trim`. */
  lemma TrimIgnoresPadding(lead: string, s: string, trail: string)
    requires AllSpace(lead) && AllSpace(trail)
    ensures Trim(lead + s + trail) == Trim(s)
  {
    assert lead + s + trail == lead + (s + trail);
    TrimStartSkips(lead, s + trail);
    if TrimStart(s) == [] {
      TrimStartEmptyIff(s);
      TrimStartEmptyIff(trail);
      assert AllSpace(s + trail);
      TrimStartEmptyIff(s + trail);
    } else {
      TrimStartAppend(s, trail);
      TrimEndSkips(TrimStart(s), trail);
    }
  }

  /** `trim` gives the empty string exactly for blank input. */
  lemma TrimEmptyIffBlank(s: string)
    ensures Trim(s) == [] <==> AllSpace(s)
  {
    TrimStartEmptyIff(s);
    if TrimStart(s) != [] {
      TrimEndKeepsHead(TrimStart(s));
    }
  }

  /** `trimEnd` stops at a non-space first character. */
  lemma {:induction false} TrimEndKeepsHead(t: string)
    requires t != [] && !IsSpace(t[0])
    ensures TrimEnd(t) != []
  {
    if IsSpace(t[|t| - 1]) {
      var u := t[..|t| - 1];
      assert u[0] == t[0];
      TrimEndKeepsHead(u);
    }
  }

  /** Trimming twice is trimming once. */
  lemma TrimIdempotent(s: string)
    ensures Trim(Trim(s)) == Trim(s)
  {
    var r := Trim(s);
    if r != [] {
      assert TrimStart(r) == r;
      assert TrimEnd(r) == r;
    }
  }

  /** The printable ASCII characters other than the space. */
  predicate IsVisible(c: char) {
    '!' <= c <= '~'
  }

  lemma VisibleNotSpace(c: char)
    requires IsVisible(c)
    ensures !IsSpace(c)
  {
  }

  /** A string with no white space at either end, whatever its characters, is left alone by `trim`. */
  lemma TrimKeepsTrimmed(s: string)
    requires Trimmed(s)
    ensures Trim(s) == s
  {
    if s != [] {
      assert TrimStart(s) == s;
    }
  }

  /** What `trimStart` drops is white space. */
  lemma {:induction false} TrimStartDropsSpace(s: string)
    ensures AllSpace(s[..|s| - |TrimStart(s)|])
  {
    if s != [] && IsSpace(s[0]) {
      TrimStartDropsSpace(s[1..]);
      var k := |s| - |TrimStart(s)|;
      forall i | 0 <= i < k ensures IsSpace(s[i]) {
        if i > 0 { assert s[i] == s[1..][..k - 1][i - 1]; }
      }
    }
  }

  /** What `trimEnd` drops is white space. */
  lemma {:induction false} TrimEndDropsSpace(s: string)
    ensures AllSpace(s[|TrimEnd(s)|..])
  {
    if s != [] && IsSpace(s[|s| - 1]) {
      var u := s[..|s| - 1];
      TrimEndDropsSpace(u);
      var k := |TrimEnd(s)|;
      forall i | k <= i < |s| ensures IsSpace(s[i]) {
        if i < |s| - 1 { assert s[i] == u[k..][i - k]; }
      }
    }
  }

  /** `trim` removes white space only: the input is the result with white-space padding around it. */
  lemma TrimPadding(s: string) returns (lead: string, trail: string)
    ensures AllSpace(lead) && AllSpace(trail)
    ensures s == lead + Trim(s) + trail
  {
    var t := TrimStart(s);
    var r := TrimEnd(t);
    TrimStartDropsSpace(s);
    TrimEndDropsSpace(t);
    lead, trail := s[..|s| - |t|], t[|r|..];
    assert t == r + trail;
    assert s == lead + t;
    Assoc(lead, r, trail);
  }

  // ------------------------------------------------------- lower casing

  /** ASCII `toLowerCase` of one character; every other character is left unchanged. */
  function LowerChar(c: char): char {
    if 'A' <= c <= 'Z' then (c as int + 32) as char else c
  }

  function AsciiLower(s: string): (r: string)
    ensures |r| == |s|
  {
    seq(|s|, i requires 0 <= i < |s| => LowerChar(s[i]))
  }

  // ------------------------------------------------------ sanitising

  /** The characters the sanitising fallback keeps: the class `[a-z0-9_]`. */
  predicate IsIdentChar(c: char) {
    ('a' <= c <= 'z') || ('0' <= c <= '9') || c == '_'
  }

  predicate IsIdentifier(s: string) {
    forall i :: 0 <= i < |s| ==> IsIdentChar(s[i])
  }

  /** `s.replace(/[^a-z0-9_]/g, '')`: keep the identifier characters of `s`, in order. */
  function Sanitise(s: string): (r: string)
    ensures IsIdentifier(r)
    ensures |r| <= |s|
    ensures IsIdentifier(s) ==> r == s
  {
    if s == [] then []
    else
      var rest := Sanitise(s[1..]);
      if IsIdentChar(s[0]) then [s[0]] + rest else rest
  }

  /** The replace keeps exactly the identifier characters of its input. */
  lemma {:induction false} SanitiseKeeps(s: string, c: char)
    ensures c in Sanitise(s) <==> c in s && IsIdentChar(c)
  {
    if s != [] {
      SanitiseKeeps(s[1..], c);
      assert c in s <==> c == s[0] || c in s[1..];
    }
  }

  /** An identifier has no white space to trim. */
  lemma IdentifierTrimmed(s: string)
    requires IsIdentifier(s)
    ensures Trim(s) == s
  {
    if s != [] {
      assert IsIdentChar(s[0]) && IsIdentChar(s[|s| - 1]);
      TrimKeepsTrimmed(s);
    }
  }

  /** The replace works character by character, so it distributes over concatenation. */
  lemma {:induction false} SanitiseConcat(a: string, b: string)
    ensures Sanitise(a + b) == Sanitise(a) + Sanitise(b)
  {
    if a != [] {
      assert (a + b)[1..] == a[1..] + b;
      SanitiseConcat(a[1..], b);
    } else {
      assert a + b == b;
    }
  }

  /** Removing one character outside the class from between two identifiers. */
  lemma SanitiseDrop(s: string, i: nat)
    requires i < |s| && !IsIdentChar(s[i])
    requires IsIdentifier(s[..i]) && IsIdentifier(s[i + 1..])
    ensures Sanitise(s) == s[..i] + s[i + 1..]
  {
    var a, b := s[..i], s[i + 1..];
    assert s == a + [s[i]] + b;
    assert Sanitise([s[i]]) == [];
    SanitiseConcat(a + [s[i]], b);
    SanitiseConcat(a, [s[i]]);
  }

  lemma AsciiLowerIdentifier(s: string)
    requires IsIdentifier(s)
    ensures AsciiLower(s) == s
  {
  }

  // --------------------------------------------------------- join / split

  /** `parts.join(sep)`: the parts in order, `sep` between each two of them. */
  function Join(parts: seq<string>, sep: string): (r: string)
    ensures parts == [] ==> r == ""
    ensures |parts| == 1 ==> r == parts[0]
  {
    if |parts| == 0 then ""
    else if |parts| == 1 then parts[0]
    else parts[0] + sep + Join(parts[1..], sep)
  }

  /** Joining two non-empty lists with the separator between them is joining their concatenation. */
  lemma {:induction false} JoinConcat(a: seq<string>, b: seq<string>, sep: string)
    requires |a| >= 1 && |b| >= 1
    ensures Join(a, sep) + sep + Join(b, sep) == Join(a + b, sep)
  {
    var ab := a + b;
    assert ab[0] == a[0];
    if |a| == 1 {
      assert ab[1..] == b;
      assert Join(ab, sep) == a[0] + sep + Join(b, sep);
    } else {
      JoinConcat(a[1..], b, sep);
      assert ab[1..] == a[1..] + b;
      assert Join(ab, sep) == a[0] + sep + Join(a[1..] + b, sep);
      assert Join(a, sep) == a[0] + sep + Join(a[1..], sep);
    }
  }

  /** Regrouping a concatenation of three sequences. */
  lemma Assoc<T>(a: seq<T>, b: seq<T>, c: seq<T>)
    ensures a + b + c == a + (b + c)
  {
  }

  /** Regrouping a concatenation of four sequences. */
  lemma Regroup<T>(a: seq<T>, b: seq<T>, c: seq<T>, d: seq<T>)
    ensures a + b + c + d == a + (b + (c + d))
  {
  }

  /** Joining a part in front of at least one other puts one separator between them. */
  lemma JoinCons(x: string, rest: seq<string>, sep: string)
    requires |rest| >= 1
    ensures Join([x] + rest, sep) == x + sep + Join(rest, sep)
  {
    assert ([x] + rest)[1..] == rest;
  }

  /** Index of the first occurrence of `c` in `s`, if any. */
  function IndexOf(s: string, c: char): (r: Option<nat>)
    ensures r.None? <==> c !in s
    ensures r.Some? ==> r.value < |s| && s[r.value] == c && c !in s[..r.value]
  {
    if s == [] then None
    else if s[0] == c then Some(0)
    else
      match IndexOf(s[1..], c)
      case None => None
      case Some(i) =>
        assert s[..i + 1] == [s[0]] + s[1..][..i];
        Some(i + 1)
  }

  /** `s.split(c)` for a one-character separator: the pieces between occurrences of `c`. */
  function Split(s: string, c: char): (parts: seq<string>)
    ensures |parts| >= 1
    ensures forall i :: 0 <= i < |parts| ==> c !in parts[i]
    ensures Join(parts, [c]) == s
    decreases |s|
  {
    match IndexOf(s, c)
    case None => [s]
    case Some(i) =>
      var rest := Split(s[i + 1..], c);
      var parts := [s[..i]] + rest;
      assert parts[1..] == rest;
      assert s == s[..i] + [c] + s[i + 1..];
      parts
  }

  /** Splitting the joined text gives the parts back, when no part contains the separator. */
  lemma {:induction false} SplitJoin(parts: seq<string>, c: char)
    requires |parts| >= 1
    requires forall i :: 0 <= i < |parts| ==> c !in parts[i]
    ensures Split(Join(parts, [c]), c) == parts
  {
    var s := Join(parts, [c]);
    if |parts| == 1 {
      assert IndexOf(s, c).None?;
    } else {
      var head := parts[0];
      var rest := Join(parts[1..], [c]);
      assert s == head + [c] + rest;
      assert s[|head|] == c;
      assert s[..|head|] == head;
      assert IndexOf(s, c) == Some(|head|);
      assert s[|head| + 1..] == rest;
      SplitJoin(parts[1..], c);
    }
  }

  /** Text before the first separator becomes the first piece; the rest is split on its own. */
  lemma SplitCons(a: string, c: char, b: string)
    requires c !in a
    ensures Split(a + [c] + b, c) == [a] + Split(b, c)
  {
    var s := a + [c] + b;
    assert s[|a|] == c;
    assert s[..|a|] == a;
    assert IndexOf(s, c) == Some(|a|);
    assert s[|a| + 1..] == b;
  }

  lemma SplitHead(a: string, c: char, b: string)
    requires c !in a
    ensures Split(a + [c] + b, c)[0] == a
  {
    var s := a + [c] + b;
    assert s[|a|] == c;
    assert s[..|a|] == a;
    assert IndexOf(s, c) == Some(|a|);
  }

  // --------------------------------------------------------- numbers

  predicate IsDigit(c: char) {
    '0' <= c <= '9'
  }

  function DigitChar(d: nat): (c: char)
    requires d < 10
    ensures IsDigit(c)
  {
    ('0' as int + d) as char
  }

  /** The decimal numeral of `n`, without leading zeros. */
  function NatToString(n: nat): (r: string)
    ensures |r| >= 1
    ensures forall i :: 0 <= i < |r| ==> IsDigit(r[i])
    ensures |r| > 1 ==> r[0] != '0'
  {
    if n < 10 then [DigitChar(n)] else NatToString(n / 10) + [DigitChar(n % 10)]
  }

  /** The value of a digit character in radix 36 (`0-9`, `a-z`, `A-Z`), as `parseInt` reads it. */
  function DigitValue(c: char): Option<nat> {
    if '0' <= c <= '9' then Some(c as int - '0' as int)
    else if 'a' <= c <= 'z' then Some(c as int - 'a' as int + 10)
    else if 'A' <= c <= 'Z' then Some(c as int - 'A' as int + 10)
    else None
  }

  predicate IsRadixDigit(c: char, radix: nat) {
    DigitValue(c).Some? && DigitValue(c).value < radix
  }

  /** Length of the leading run of radix digits. */
  function DigitRun(s: string, radix: nat): (n: nat)
    ensures n <= |s|
    ensures forall i :: 0 <= i < n ==> IsRadixDigit(s[i], radix)
    ensures n < |s| ==> !IsRadixDigit(s[n], radix)
  {
    if s == [] || !IsRadixDigit(s[0], radix) then 0 else 1 + DigitRun(s[1..], radix)
  }

  /** The value of a numeral after one more digit `d` is written to the right of value `v`. */
  function AppendDigit(v: nat, radix: nat, d: nat): nat {
    v * radix + d
  }

  /** The number a run of radix digits denotes, most significant digit first. */
  function DigitsValue(s: string, radix: nat): nat
    requires forall i :: 0 <= i < |s| ==> IsRadixDigit(s[i], radix)
  {
    if s == [] then 0
    else
      var init, last := s[..|s| - 1], s[|s| - 1];
      assert IsRadixDigit(last, radix);
      assert forall i :: 0 <= i < |init| ==> init[i] == s[i];
      AppendDigit(DigitsValue(init, radix), radix, DigitValue(last).value)
  }

  /** The longest leading run of radix digits read as a number; `None` when there is none. */
  function ReadDigits(u: string, radix: nat): Option<nat> {
    var z := DigitRun(u, radix);
    if z == 0 then None else Some(DigitsValue(u[..z], radix))
  }

  predicate HasHexPrefix(u: string) {
    |u| >= 2 && u[0] == '0' && (u[1] == 'x' || u[1] == 'X')
  }

  /** An unsigned numeral: hexadecimal after a `0x`/`0X` prefix, decimal otherwise. */
  function ReadMagnitude(u: string): Option<nat> {
    if HasHexPrefix(u) then ReadDigits(u[2..], 16) else ReadDigits(u, 10)
  }

  function AsInt(m: Option<nat>): Option<int> {
    match m
    case None => None
    case Some(v) => Some(v)
  }

  function Negate(m: Option<nat>): Option<int> {
    match m
    case None => None
    case Some(v) => Some(0 - v as int)
  }

  /**
   * The global `parseInt(s)` with no radix: skip leading white space, read an optional
   * sign, read a `0x`/`0X` prefix as hexadecimal, then the longest run of digits.
   * `None` is `NaN` (no digit at all).
   */
  function ParseInt(s: string): (r: Option<int>)
    ensures TrimStart(s) == [] ==> r.None?
  {
    var t := TrimStart(s);
    if |t| > 0 && t[0] == '-' then Negate(ReadMagnitude(t[1..]))
    else if |t| > 0 && t[0] == '+' then AsInt(ReadMagnitude(t[1..]))
    else AsInt(ReadMagnitude(t))
  }

  lemma {:induction false} DigitsValueOfNatToString(n: nat)
    ensures forall i :: 0 <= i < |NatToString(n)| ==> IsRadixDigit(NatToString(n)[i], 10)
    ensures DigitsValue(NatToString(n), 10) == n
  {
    var r := NatToString(n);
    assert forall i :: 0 <= i < |r| ==> IsRadixDigit(r[i], 10) by {
      forall i | 0 <= i < |r| ensures IsRadixDigit(r[i], 10) {
        assert IsDigit(r[i]);
      }
    }
    if n >= 10 {
      DigitsValueOfNatToString(n / 10);
      assert r[..|r| - 1] == NatToString(n / 10);
    }
  }

  /** A run made only of radix digits is read to its end. */
  lemma {:induction false} DigitRunAll(s: string, radix: nat)
    requires forall i :: 0 <= i < |s| ==> IsRadixDigit(s[i], radix)
    ensures DigitRun(s, radix) == |s|
  {
    if s != [] {
      assert IsRadixDigit(s[0], radix);
      DigitRunAll(s[1..], radix);
    }
  }

  lemma ReadDigitsAll(s: string, radix: nat)
    requires |s| >= 1
    requires forall i :: 0 <= i < |s| ==> IsRadixDigit(s[i], radix)
    ensures ReadDigits(s, radix) == Some(DigitsValue(s, radix))
  {
    DigitRunAll(s, radix);
    assert s[..|s|] == s;
  }

  /** Only a `-` after the leading white space makes `parseInt` negative. */
  lemma ParseIntNegativeNeedsMinus(s: string)
    ensures ParseInt(s).Some? && ParseInt(s).value < 0 ==> TrimStart(s) != [] && TrimStart(s)[0] == '-'
  {
    var t := TrimStart(s);
    if !(|t| > 0 && t[0] == '-') {
      var m := ReadMagnitude(if |t| > 0 && t[0] == '+' then t[1..] else t);
      assert ParseInt(s) == AsInt(m);
      match m
      case None =>
      case Some(v) => assert AsInt(m).value >= 0;
    }
  }

  /** Text starting with a visible character other than a sign is read by `parseInt` as an unsigned numeral. */
  lemma ParseIntUnsigned(s: string)
    requires |s| >= 1 && IsVisible(s[0]) && s[0] != '-' && s[0] != '+'
    ensures ParseInt(s) == AsInt(ReadMagnitude(s))
  {
    VisibleNotSpace(s[0]);
    assert TrimStart(s) == s;
  }

  /** On a plain decimal numeral `parseInt` yields its value. */
  lemma ParseIntDecimal(s: string)
    requires |s| >= 1
    requires forall i :: 0 <= i < |s| ==> IsRadixDigit(s[i], 10)
    ensures ParseInt(s) == Some(DigitsValue(s, 10))
  {
    assert IsRadixDigit(s[0], 10);
    assert !HasHexPrefix(s) by {
      if |s| >= 2 { assert IsRadixDigit(s[1], 10); }
    }
    ReadDigitsAll(s, 10);
    ParseIntUnsigned(s);
  }

  /** `parseInt` reads a numeral written by `NatToString` up to the first character that is no digit. */
  lemma ParseIntNumeralThen(n: nat, t: string)
    requires t == [] || (!IsRadixDigit(t[0], 10) && t[0] != 'x' && t[0] != 'X')
    ensures ParseInt(NatToString(n) + t) == Some(n)
  {
    var d := NatToString(n);
    var s := d + t;
    DigitsValueOfNatToString(n);
    assert s[0] == d[0] && IsDigit(s[0]);
    ParseIntUnsigned(s);
    assert !HasHexPrefix(s) by {
      if |d| == 1 { if t != [] { assert s[1] == t[0]; } } else { assert s[1] == d[1]; }
    }
    DigitRunAppend(d, t);
    assert s[..|d|] == d;
  }

  /** The digit run of a numeral followed by a non-digit is the numeral. */
  lemma {:induction false} DigitRunAppend(d: string, t: string)
    requires forall i :: 0 <= i < |d| ==> IsRadixDigit(d[i], 10)
    requires t == [] || !IsRadixDigit(t[0], 10)
    ensures DigitRun(d + t, 10) == |d|
  {
    if d == [] {
      assert d + t == t;
    } else {
      assert (d + t)[0] == d[0];
      assert (d + t)[1..] == d[1..] + t;
      DigitRunAppend(d[1..], t);
    }
  }

  /** `parseInt` reads back a numeral written by `NatToString`. */
  lemma ParseIntNatToString(n: nat)
    ensures ParseInt(NatToString(n)) == Some(n)
  {
    DigitsValueOfNatToString(n);
    ParseIntDecimal(NatToString(n));
  }
}
