/** The window-title normalisation of the desktop tracker
    (`normalizeTitle` in electron/tracker.js): counters such as `(3)` and
    clock times such as `10:42` are cut out, white space is collapsed and
    trimmed, and the title is lower-cased, so that a title whose counter or
    clock ticks still names the same window. */
module DesktopTitles {
  import opened Text

  predicate NoOpenParen(s: string) {
    forall i :: 0 <= i < |s| ==> s[i] != '('
  }

  predicate NoDigit(s: string) {
    forall i :: 0 <= i < |s| ==> !IsDigit(s[i])
  }

  predicate AllDigits(s: string) {
    forall i :: 0 <= i < |s| ==> IsDigit(s[i])
  }

  // ---------------------------------------------------------------------
  // replace(/\(\d+\)/g, '')

  /** The length of the match of `\(\d+\)` at the start of `s`, or 0: an
      opening parenthesis, the whole run of digits after it (at least one),
      and a closing parenthesis. */
  function CountAt(s: string): (n: nat)
    ensures n <= |s|
    ensures n > 0 ==> n >= 3 && s[0] == '(' && s[n - 1] == ')' && AllDigits(s[1..n - 1])
  {
    if s == [] || s[0] != '(' then 0
    else
      var k := DigitRun(s[1..]);
      if k > 0 && k + 1 < |s| && s[k + 1] == ')' then k + 2 else 0
  }

  /** The global replacement: the scan drops each match it finds and goes on
      after it, and otherwise keeps one character and moves on. */
  function RemoveCounts(s: string): (r: string)
    ensures |r| <= |s|
  {
    if s == [] then []
    else
      var n := CountAt(s);
      if n > 0 then RemoveCounts(s[n..]) else [s[0]] + RemoveCounts(s[1..])
  }

  // ---------------------------------------------------------------------
  // replace(/\d{1,2}:\d{2}(:\d{2})?/g, '')

  predicate TwoDigitsAt(s: string, i: int) {
    0 <= i && i + 1 < |s| && IsDigit(s[i]) && IsDigit(s[i + 1])
  }

  /** The length of the match of `\d{1,2}:\d{2}(:\d{2})?` at the start of
      `s`, or 0. The hour takes two digits when it can and one otherwise;
      the seconds are taken when they are there. */
  function ClockAt(s: string): (n: nat)
    ensures n <= |s|
    ensures n > 0 ==> IsDigit(s[0])
  {
    var h :=
      if TwoDigitsAt(s, 0) && 2 < |s| && s[2] == ':' && TwoDigitsAt(s, 3) then 2
      else if 1 < |s| && IsDigit(s[0]) && s[1] == ':' && TwoDigitsAt(s, 2) then 1
      else 0;
    if h == 0 then 0
    else if h + 3 < |s| && s[h + 3] == ':' && TwoDigitsAt(s, h + 4) then h + 6
    else h + 3
  }

  function RemoveClocks(s: string): (r: string)
    ensures |r| <= |s|
  {
    if s == [] then []
    else
      var n := ClockAt(s);
      if n > 0 then RemoveClocks(s[n..]) else [s[0]] + RemoveClocks(s[1..])
  }

  // ---------------------------------------------------------------------
  // normalizeTitle

  /** White space in `s` is single spaces only. */
  ghost predicate SingleSpaced(s: string) {
    && (forall i :: 0 <= i < |s| && IsSpace(s[i]) ==> s[i] == ' ')
    && (forall i, j :: 0 <= i < j < |s| && j == i + 1 ==> !(IsSpace(s[i]) && IsSpace(s[j])))
  }

  predicate Trimmed(s: string) {
    s == [] || (!IsSpace(s[0]) && !IsSpace(s[|s| - 1]))
  }

  /** `normalizeTitle`: counters and clock times are cut out, white space
      is collapsed and trimmed, and the result is lower-cased. */
  function NormalizeTitle(title: string): string
  {
    Lower(Trim(CollapseSpaces(RemoveClocks(RemoveCounts(title)))))
  }

  /** The normalised title is lower-case, has no white space at either end,
      and has no white space but single spaces. */
  lemma NormalizeTitleShape(title: string)
    ensures var r := NormalizeTitle(title);
      && (forall i :: 0 <= i < |r| ==> !('A' <= r[i] <= 'Z'))
      && Trimmed(r) && SingleSpaced(r)
  {
    var collapsed := CollapseSpaces(RemoveClocks(RemoveCounts(title)));
    CollapseSpacesSpec(RemoveClocks(RemoveCounts(title)));
    TrimKeepsSpacing(collapsed);
    LowerKeepsSpacing(Trim(collapsed));
  }

  lemma SliceKeepsSpacing(s: string, a: nat, b: nat)
    requires SingleSpaced(s) && a <= b <= |s|
    ensures SingleSpaced(s[a..b])
  {
    assert forall i :: 0 <= i < b - a ==> s[a..b][i] == s[a + i];
  }

  lemma TrimKeepsSpacing(s: string)
    requires SingleSpaced(s)
    ensures SingleSpaced(Trim(s)) && Trimmed(Trim(s))
  {
    var t := TrimStart(s);
    TrimSpec(s);
    SliceKeepsSpacing(s, |s| - |t|, |s|);
    SliceKeepsSpacing(t, 0, |TrimEnd(t)|);
  }

  lemma LowerKeepsSpacing(s: string)
    requires SingleSpaced(s) && Trimmed(s)
    ensures SingleSpaced(Lower(s)) && Trimmed(Lower(s))
  {
    var r := Lower(s);
    forall i | 0 <= i < |s|
      ensures IsSpace(r[i]) == IsSpace(s[i]) && (IsSpace(s[i]) ==> r[i] == s[i])
    {
      if 'A' <= s[i] <= 'Z' {
        assert 'a' <= r[i] <= 'z';
      }
    }
  }

  // ---------------------------------------------------------------------
  // What the normalisation ignores

  /** The scan passes over text without an opening parenthesis unchanged. */
  lemma {:induction false} RemoveCountsPlain(p: string, s: string)
    requires NoOpenParen(p)
    ensures RemoveCounts(p + s) == p + RemoveCounts(s)
  {
    if p != [] {
      assert (p + s)[1..] == p[1..] + s;
      RemoveCountsPlain(p[1..], s);
      assert p == [p[0]] + p[1..];
    } else {
      assert p + s == s;
    }
  }

  /** A counter at the front is dropped whole. */
  lemma CountDropped(d: string, q: string)
    requires d != [] && AllDigits(d)
    ensures RemoveCounts("(" + d + ")" + q) == RemoveCounts(q)
  {
    var s := "(" + d + ")" + q;
    assert s[1..] == d + (")" + q);
    DigitRunPrefix(d, ")" + q);
    assert CountAt(s) == |d| + 2;
    assert s[|d| + 2..] == q;
  }

  /** Titles that differ only in the number of a counter normalise alike,
      so "Inbox (3)" and "Inbox (4)" are one window. */
  lemma TitleCountsIgnored(p: string, d1: string, d2: string, q: string)
    requires NoOpenParen(p)
    requires d1 != [] && AllDigits(d1) && d2 != [] && AllDigits(d2)
    ensures NormalizeTitle(p + "(" + d1 + ")" + q) == NormalizeTitle(p + "(" + d2 + ")" + q)
  {
    assert p + "(" + d1 + ")" + q == p + ("(" + d1 + ")" + q);
    assert p + "(" + d2 + ")" + q == p + ("(" + d2 + ")" + q);
    RemoveCountsPlain(p, "(" + d1 + ")" + q);
    RemoveCountsPlain(p, "(" + d2 + ")" + q);
    CountDropped(d1, q);
    CountDropped(d2, q);
  }

  /** The scan passes over text without digits unchanged. */
  lemma {:induction false} RemoveClocksPlain(p: string, s: string)
    requires NoDigit(p)
    ensures RemoveClocks(p + s) == p + RemoveClocks(s)
  {
    if p != [] {
      assert (p + s)[1..] == p[1..] + s;
      RemoveClocksPlain(p[1..], s);
      assert p == [p[0]] + p[1..];
    } else {
      assert p + s == s;
    }
  }

  /** `H:MM`, `HH:MM`, `H:MM:SS` or `HH:MM:SS`. */
  predicate ClockShaped(c: string) {
    || (|c| == 4 && IsDigit(c[0]) && c[1] == ':' && TwoDigitsAt(c, 2))
    || (|c| == 5 && TwoDigitsAt(c, 0) && c[2] == ':' && TwoDigitsAt(c, 3))
    || (|c| == 7 && IsDigit(c[0]) && c[1] == ':' && TwoDigitsAt(c, 2) && c[4] == ':' && TwoDigitsAt(c, 5))
    || (|c| == 8 && TwoDigitsAt(c, 0) && c[2] == ':' && TwoDigitsAt(c, 3) && c[5] == ':' && TwoDigitsAt(c, 6))
  }

  /** A clock time at the front is dropped whole, unless a colon follows
      it, which could make the match longer. */
  lemma ClockDropped(c: string, q: string)
    requires ClockShaped(c) && (q == [] || q[0] != ':')
    ensures RemoveClocks(c + q) == RemoveClocks(q)
  {
    var s := c + q;
    assert forall i :: 0 <= i < |c| ==> s[i] == c[i];
    assert |s| > |c| ==> s[|c|] == q[0];
    assert ClockAt(s) == |c|;
    assert s[|c|..] == q;
  }

  lemma ClockPlain(c: string)
    requires ClockShaped(c)
    ensures NoOpenParen(c)
  {
  }

  lemma PlainJoin(p: string, c: string, q: string)
    requires NoOpenParen(p) && NoOpenParen(c) && NoOpenParen(q)
    ensures NoOpenParen(p + c + q)
  {
    var s := p + c + q;
    forall i | 0 <= i < |s|
      ensures s[i] != '('
    {
      if i < |p| { assert s[i] == p[i]; }
      else if i < |p| + |c| { assert s[i] == c[i - |p|]; }
      else { assert s[i] == q[i - |p| - |c|]; }
    }
  }

  lemma NoCounts(s: string)
    requires NoOpenParen(s)
    ensures RemoveCounts(s) == s
  {
    RemoveCountsPlain(s, []);
    assert s + [] == s;
  }

  lemma ClockCut(p: string, c: string, q: string)
    requires NoDigit(p) && ClockShaped(c) && (q == [] || q[0] != ':')
    ensures RemoveClocks(p + c + q) == p + RemoveClocks(q)
  {
    assert p + c + q == p + (c + q);
    RemoveClocksPlain(p, c + q);
    ClockDropped(c, q);
  }

  /** Both removals, on a title whose only digits are those of one clock
      time, leave the title without it. */
  lemma ClockRemoved(p: string, c: string, q: string)
    requires NoOpenParen(p) && NoDigit(p) && NoOpenParen(q) && (q == [] || q[0] != ':')
    requires ClockShaped(c)
    ensures RemoveClocks(RemoveCounts(p + c + q)) == p + RemoveClocks(q)
  {
    ClockPlain(c);
    PlainJoin(p, c, q);
    NoCounts(p + c + q);
    ClockCut(p, c, q);
  }

  /** Titles that differ only in a clock time normalise alike, so
      "Standup 9:30" and "Standup 10:15" are one window. */
  lemma TitleClocksIgnored(p: string, c1: string, c2: string, q: string)
    requires NoOpenParen(p) && NoDigit(p) && NoOpenParen(q) && (q == [] || q[0] != ':')
    requires ClockShaped(c1) && ClockShaped(c2)
    ensures NormalizeTitle(p + c1 + q) == NormalizeTitle(p + c2 + q)
  {
    ClockRemoved(p, c1, q);
    ClockRemoved(p, c2, q);
  }
}
