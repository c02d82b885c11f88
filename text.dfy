/** Strings, optional values and the host regular-expression engine, as the
    tracker code uses them from JavaScript's standard library. */
module Text {

  datatype Option<+T> = None | Some(value: T)

  /** `x || d` for a JavaScript number: 0 and `undefined` both fall back to `d`. */
  function OrDefault(o: Option<int>, d: int): (r: int)
    ensures r == d || (o.Some? && r == o.value && o.value != 0)
    ensures o.Some? && o.value != 0 ==> r == o.value
    ensures !(o.Some? && o.value != 0) ==> r == d
  {
    if o.Some? && o.value != 0 then o.value else d
  }

  /** `s || d` for a JavaScript string: the empty string falls back to `d`. */
  function OrElse(s: string, d: string): (r: string)
    ensures s != [] ==> r == s
    ensures s == [] ==> r == d
  {
    if s == [] then d else s
  }

  // ---------------------------------------------------------------------
  // Character classes

  /** JavaScript's white space and line terminators: the `\s` class, and what
      `String.prototype.trim` removes. */
  predicate IsSpace(c: char) {
    c == ' ' || c == '\t' || c == '\n' || c == '\r' || c == '\U{000B}' || c == '\U{000C}'
    || c == '\U{00A0}' || c == '\U{1680}' || ('\U{2000}' <= c <= '\U{200A}')
    || c == '\U{2028}' || c == '\U{2029}' || c == '\U{202F}' || c == '\U{205F}'
    || c == '\U{3000}' || c == '\U{FEFF}'
  }

  /** The characters that `.` in a JavaScript regular expression does not match. */
  predicate IsLineTerminator(c: char) {
    c == '\n' || c == '\r' || c == '\U{2028}' || c == '\U{2029}'
  }

  predicate IsDigit(c: char) {
    '0' <= c <= '9'
  }

  function LowerChar(c: char): (r: char)
    ensures !('A' <= r <= 'Z')
    ensures !('A' <= c <= 'Z') ==> r == c
  {
    if 'A' <= c <= 'Z' then (c as int + 32) as char else c
  }

  /** `toLowerCase`, on the ASCII letters. */
  function Lower(s: string): (r: string)
    ensures |r| == |s|
    ensures forall i :: 0 <= i < |s| ==> r[i] == LowerChar(s[i])
  {
    seq(|s|, i requires 0 <= i < |s| => LowerChar(s[i]))
  }

  /** Lower-casing twice is lower-casing once, so a caller that lower-cases a
      pattern the matcher lower-cases again gets the same answer. */
  lemma LowerIdempotent(s: string)
    ensures Lower(Lower(s)) == Lower(s)
  {
  }

  // ---------------------------------------------------------------------
  // Substring tests: `includes`, `startsWith`, `endsWith`

  predicate OccursAt(text: string, pattern: string, i: int) {
    0 <= i && i + |pattern| <= |text| && text[i..i + |pattern|] == pattern
  }

  predicate Includes(text: string, pattern: string) {
    exists i | 0 <= i <= |text| - |pattern| :: OccursAt(text, pattern, i)
  }

  predicate HasPrefix(text: string, pattern: string) {
    |pattern| <= |text| && text[..|pattern|] == pattern
  }

  predicate HasSuffix(text: string, pattern: string) {
    |pattern| <= |text| && text[|text| - |pattern|..] == pattern
  }

  /** Two strings that differ at a position both of them have: nothing can
      start with both. */
  predicate Incompatible(p: string, q: string) {
    p != [] && q != [] && (p[0] != q[0] || Incompatible(p[1..], q[1..]))
  }

  lemma {:induction false} IncompatiblePrefixes(x: string, y: string, p: string, q: string)
    requires HasPrefix(x, p) && HasPrefix(y, q) && Incompatible(p, q)
    ensures x != y
  {
    if p[0] == q[0] {
      assert HasPrefix(x[1..], p[1..]) && HasPrefix(y[1..], q[1..]);
      IncompatiblePrefixes(x[1..], y[1..], p[1..], q[1..]);
      assert x == [x[0]] + x[1..] && y == [y[0]] + y[1..];
    }
  }

  lemma IncludesLength(text: string, pattern: string)
    requires Includes(text, pattern)
    ensures |pattern| <= |text|
  {
  }

  // ---------------------------------------------------------------------
  // Trimming and white-space runs

  function TrimStart(s: string): (r: string)
    ensures |r| <= |s|
  {
    if s != [] && IsSpace(s[0]) then TrimStart(s[1..]) else s
  }

  /** What `TrimStart` drops is a run of white space at the front, and what
      it keeps does not start with white space. */
  lemma {:induction false} TrimStartSpec(s: string)
    ensures var r := TrimStart(s);
      && r == s[|s| - |r|..]
      && (r == [] || !IsSpace(r[0]))
      && (forall i :: 0 <= i < |s| - |r| ==> IsSpace(s[i]))
  {
    if s != [] && IsSpace(s[0]) {
      TrimStartSpec(s[1..]);
      var r := TrimStart(s);
      assert s[1..][|s| - 1 - |r|..] == s[|s| - |r|..];
      assert forall i :: 1 <= i < |s| - |r| ==> s[i] == s[1..][i - 1];
    }
  }

  function TrimEnd(s: string): (r: string)
    ensures |r| <= |s|
  {
    if s != [] && IsSpace(s[|s| - 1]) then TrimEnd(s[..|s| - 1]) else s
  }

  /** Likewise at the back. */
  lemma {:induction false} TrimEndSpec(s: string)
    ensures var r := TrimEnd(s);
      && r == s[..|r|]
      && (r == [] || !IsSpace(r[|r| - 1]))
      && (forall i :: |r| <= i < |s| ==> IsSpace(s[i]))
  {
    if s != [] && IsSpace(s[|s| - 1]) {
      var init := s[..|s| - 1];
      TrimEndSpec(init);
      var r := TrimEnd(s);
      assert init[..|r|] == s[..|r|];
      assert forall i :: |r| <= i < |init| ==> init[i] == s[i];
    }
  }

  /** `String.prototype.trim`. */
  function Trim(s: string): (r: string)
    ensures |r| <= |s|
  {
    TrimEnd(TrimStart(s))
  }

  /** The trimmed string is a slice of the string with white space at
      neither end. */
  lemma TrimSpec(s: string)
    ensures var t := TrimStart(s); var r := Trim(s);
      && r == s[|s| - |t|..][..|r|]
      && (r == [] || (!IsSpace(r[0]) && !IsSpace(r[|r| - 1])))
  {
    var t := TrimStart(s);
    TrimStartSpec(s);
    TrimEndSpec(t);
    var r := TrimEnd(t);
    if r != [] {
      assert r[0] == t[0];
    }
  }

  /** `replace(/\s+/g, ' ')`: every maximal run of white space becomes one space. */
  function CollapseSpaces(s: string): (r: string)
    decreases |s|
  {
    if s == [] then []
    else if IsSpace(s[0]) then [' '] + CollapseSpaces(TrimStart(s[1..]))
    else [s[0]] + CollapseSpaces(s[1..])
  }

  /** No two white-space characters are adjacent in the result and its only
      white space is the plain space; it starts as the input does. */
  lemma {:induction false} CollapseSpacesSpec(s: string)
    ensures var r := CollapseSpaces(s);
      && (forall i, j :: 0 <= i < j < |r| && j == i + 1 ==> !(IsSpace(r[i]) && IsSpace(r[j])))
      && (forall i :: 0 <= i < |r| && IsSpace(r[i]) ==> r[i] == ' ')
      && (s != [] && IsSpace(s[0]) ==> r != [] && r[0] == ' ')
      && (s != [] && !IsSpace(s[0]) ==> r != [] && r[0] == s[0])
  {
    if s != [] {
      var rest := if IsSpace(s[0]) then TrimStart(s[1..]) else s[1..];
      if IsSpace(s[0]) {
        TrimStartSpec(s[1..]);
      }
      CollapseSpacesSpec(rest);
      var r := CollapseSpaces(s);
      var cr := CollapseSpaces(rest);
      assert r == [r[0]] + cr;
      assert forall i :: 1 <= i < |r| ==> r[i] == cr[i - 1];
    }
  }

  // ---------------------------------------------------------------------
  // Decimal numerals: `${n}` for a non-negative integer

  function DigitChar(d: nat): (c: char)
    requires d < 10
    ensures IsDigit(c)
  {
    ('0' as int + d) as char
  }

  function DigitValue(c: char): nat
    requires IsDigit(c)
  {
    c as int - '0' as int
  }

  function Decimal(n: nat): (r: string)
    ensures r != []
    ensures forall i :: 0 <= i < |r| ==> IsDigit(r[i])
    decreases n
  {
    if n < 10 then [DigitChar(n)] else Decimal(n / 10) + [DigitChar(n % 10)]
  }

  /** The value of a string of decimal digits. */
  function ValueOf(s: string): nat
    requires forall i :: 0 <= i < |s| ==> IsDigit(s[i])
  {
    if s == [] then 0 else 10 * ValueOf(s[..|s| - 1]) + DigitValue(s[|s| - 1])
  }

  /** Reading back the numeral of `n` gives `n`. */
  lemma {:induction false} DecimalRoundTrip(n: nat)
    ensures ValueOf(Decimal(n)) == n
  {
    if n >= 10 {
      var d := Decimal(n / 10);
      DecimalRoundTrip(n / 10);
      assert Decimal(n) == d + [DigitChar(n % 10)];
      assert Decimal(n)[..|Decimal(n)| - 1] == d;
    }
  }

  /** A numeral has a single digit exactly for the numbers below ten. */
  lemma {:induction false} DecimalLength(n: nat)
    ensures (|Decimal(n)| == 1) == (n < 10)
  {
    if n >= 10 {
      DecimalLength(n / 10);
    }
  }

  /** The length of the run of digits at the start of `s`. */
  function DigitRun(s: string): (r: nat)
    ensures r <= |s|
    ensures forall i :: 0 <= i < r ==> IsDigit(s[i])
    ensures r == |s| || !IsDigit(s[r])
  {
    if s == [] || !IsDigit(s[0]) then 0 else 1 + DigitRun(s[1..])
  }

  /** Reads the number at the start of `s` and returns what follows it. */
  function ReadNat(s: string): (r: Option<(nat, string)>)
    ensures r.None? <==> s == [] || !IsDigit(s[0])
  {
    var k := DigitRun(s);
    if k == 0 then None else Some((ValueOf(s[..k]), s[k..]))
  }

  lemma {:induction false} DigitRunPrefix(d: string, rest: string)
    requires forall i :: 0 <= i < |d| ==> IsDigit(d[i])
    requires rest == [] || !IsDigit(rest[0])
    ensures DigitRun(d + rest) == |d|
  {
    if d != [] {
      assert (d + rest)[1..] == d[1..] + rest;
      DigitRunPrefix(d[1..], rest);
    } else {
      assert d + rest == rest;
    }
  }

  /** A run of digits followed by something that is not a digit reads back whole. */
  lemma ReadDigits(d: string, rest: string)
    requires d != [] && forall i :: 0 <= i < |d| ==> IsDigit(d[i])
    requires rest == [] || !IsDigit(rest[0])
    ensures ReadNat(d + rest) == Some((ValueOf(d), rest))
  {
    DigitRunPrefix(d, rest);
    assert (d + rest)[..|d|] == d && (d + rest)[|d|..] == rest;
  }

  /** A numeral followed by something that is not a digit reads back as its number. */
  lemma ReadDecimal(n: nat, rest: string)
    requires rest == [] || !IsDigit(rest[0])
    ensures ReadNat(Decimal(n) + rest) == Some((n, rest))
  {
    ReadDigits(Decimal(n), rest);
    DecimalRoundTrip(n);
  }

  lemma {:induction false} ValueOfLeadingZero(d: string)
    requires forall i :: 0 <= i < |d| ==> IsDigit(d[i])
    ensures ValueOf("0" + d) == ValueOf(d)
  {
    if d != [] {
      var z := "0" + d;
      assert z[..|z| - 1] == "0" + d[..|d| - 1];
      ValueOfLeadingZero(d[..|d| - 1]);
    } else {
      assert ("0" + d)[..0] == [];
    }
  }

  // ---------------------------------------------------------------------
  // The JavaScript `RegExp` engine, supplied by the host

  /** What `new RegExp(pattern, 'i').test(text)` does: an invalid pattern
      throws, a valid one answers yes or no. */
  datatype RegexOutcome = InvalidPattern | Decided(matched: bool)

  /** The engine, as a function of the pattern and the text. */
  type RegexEngine = (string, string) -> RegexOutcome

  /** A test wrapped in `try … catch { return false }`: an invalid pattern is no match. */
  function RegexTest(re: RegexEngine, pattern: string, text: string): (r: bool)
    ensures re(pattern, text).InvalidPattern? ==> !r
    ensures re(pattern, text).Decided? ==> r == re(pattern, text).matched
  {
    match re(pattern, text)
    case InvalidPattern => false
    case Decided(m) => m
  }

  /** `Math.round` of a rational number: halves round up. */
  function JsRound(x: real): (r: int)
    ensures x - 1.0 / 2.0 < r as real <= x + 1.0 / 2.0
  {
    (x + 1.0 / 2.0).Floor
  }
}
