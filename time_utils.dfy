/** Duration formatting and day arithmetic of src/utils/timeUtils.ts.
    Durations are whole, non-negative seconds; time stamps are milliseconds. */
module TimeUtils {
  import opened Text

  const MINUTE_MS := 60000
  const HOUR_MS := 3600000
  const DAY_MS := 86400000

  /** Division by a positive constant has one quotient and one remainder. */
  lemma DivUnique(a: int, q: int, r: int, d: int)
    requires d > 0 && 0 <= r < d && a == q * d + r
    ensures a / d == q && a % d == r
  {
    var k, m := a / d, a % d;
    assert (k - q) * d == r - m;
    if k > q {
      MulAtLeast(k - q, d);
    } else if k < q {
      MulAtLeast(q - k, d);
    }
  }

  lemma MulAtLeast(x: int, d: int)
    requires x >= 1 && d > 0
    ensures x * d >= d
  {
  }

  /** Whole hours, the minutes past the hour, the seconds past the minute. */
  datatype Clock = Clock(hours: nat, minutes: nat, secs: nat)

  predicate ClockValid(c: Clock) {
    c.minutes < 60 && c.secs < 60
  }

  function TotalSeconds(c: Clock): nat {
    c.hours * 3600 + c.minutes * 60 + c.secs
  }

  /** `Math.floor(s / 3600)`, `Math.floor((s % 3600) / 60)` and `s % 60`. */
  function SplitSeconds(seconds: nat): (c: Clock)
    ensures ClockValid(c) && TotalSeconds(c) == seconds
  {
    Clock(seconds / 3600, (seconds % 3600) / 60, seconds % 60)
  }

  /** Every valid clock reading is the split of its own total: the split is
      the only way to write a number of seconds as hours, minutes and seconds. */
  lemma SplitUnique(c: Clock)
    requires ClockValid(c)
    ensures SplitSeconds(TotalSeconds(c)) == c
  {
    var t := TotalSeconds(c);
    DivUnique(t, c.hours, c.minutes * 60 + c.secs, 3600);
    DivUnique(c.minutes * 60 + c.secs, c.minutes, c.secs, 60);
    DivUnique(t, c.hours * 60 + c.minutes, c.secs, 60);
  }

  // ---------------------------------------------------------------------
  // formatDuration

  /** What the short form shows. */
  datatype Shown = HoursMinutes(h: nat, m: nat) | MinutesSeconds(m: nat, s: nat) | SecondsOnly(s: nat)

  /** "Hh Mm" from an hour on, "Mm Ss" from a minute on, "Ss" below. */
  function FormatDuration(seconds: nat): (r: string)
    ensures r != [] && IsDigit(r[0])
  {
    var c := SplitSeconds(seconds);
    if c.hours > 0 then Decimal(c.hours) + "h " + Decimal(c.minutes) + "m"
    else if c.minutes > 0 then Decimal(c.minutes) + "m " + Decimal(c.secs) + "s"
    else Decimal(c.secs) + "s"
  }

  /** Reads a short-form duration back. */
  function ParseDuration(s: string): Option<Shown> {
    match ReadNat(s)
    case None => None
    case Some((a, rest)) =>
      if rest == "s" then Some(SecondsOnly(a))
      else if |rest| >= 2 && rest[..2] == "h " then
        match ReadNat(rest[2..])
        case Some((b, tail)) => if tail == "m" then Some(HoursMinutes(a, b)) else None
        case None => None
      else if |rest| >= 2 && rest[..2] == "m " then
        match ReadNat(rest[2..])
        case Some((b, tail)) => if tail == "s" then Some(MinutesSeconds(a, b)) else None
        case None => None
      else None
  }

  /** A number, a two-character separator, a number and a unit read as
      the first number before the rest, and the second before the unit. */
  lemma ReadsPair(a: nat, sep: string, b: nat, unit: string)
    requires |sep| == 2 && !IsDigit(sep[0]) && unit != [] && !IsDigit(unit[0])
    ensures ReadNat(Decimal(a) + sep + Decimal(b) + unit) == Some((a, sep + Decimal(b) + unit))
    ensures ReadNat(Decimal(b) + unit) == Some((b, unit))
  {
    var tail := sep + Decimal(b) + unit;
    assert Decimal(a) + sep + Decimal(b) + unit == Decimal(a) + tail;
    assert tail[0] == sep[0];
    ReadDecimal(a, tail);
    ReadDecimal(b, unit);
  }

  lemma ReadsHoursMinutes(h: nat, m: nat)
    ensures ParseDuration(Decimal(h) + "h " + Decimal(m) + "m") == Some(HoursMinutes(h, m))
  {
    var tail := "h " + Decimal(m) + "m";
    ReadsPair(h, "h ", m, "m");
    assert tail[..2] == "h " && tail[2..] == Decimal(m) + "m";
    assert |tail| > 1;
  }

  lemma ReadsMinutesSeconds(m: nat, sec: nat)
    ensures ParseDuration(Decimal(m) + "m " + Decimal(sec) + "s") == Some(MinutesSeconds(m, sec))
  {
    var tail := "m " + Decimal(sec) + "s";
    ReadsPair(m, "m ", sec, "s");
    assert tail[..2] == "m " && tail[2..] == Decimal(sec) + "s";
    assert |tail| > 1 && tail[..2] != "h ";
  }

  /** The short form reads back as the hours and minutes from 3600 seconds
      on, the minutes and seconds from 60 seconds on, and the seconds below. */
  lemma FormatDurationReads(seconds: nat)
    ensures seconds >= 3600 ==>
      ParseDuration(FormatDuration(seconds)) == Some(HoursMinutes(seconds / 3600, seconds % 3600 / 60))
    ensures 60 <= seconds < 3600 ==>
      ParseDuration(FormatDuration(seconds)) == Some(MinutesSeconds(seconds / 60, seconds % 60))
    ensures seconds < 60 ==> ParseDuration(FormatDuration(seconds)) == Some(SecondsOnly(seconds))
  {
    var c := SplitSeconds(seconds);
    if seconds >= 3600 {
      assert c.hours > 0;
      ReadsHoursMinutes(c.hours, c.minutes);
    } else if seconds >= 60 {
      assert c.hours == 0 && c.minutes == seconds / 60 && c.minutes > 0;
      ReadsMinutesSeconds(c.minutes, c.secs);
    } else {
      assert c.hours == 0 && c.minutes == 0 && c.secs == seconds;
      ReadDecimal(c.secs, "s");
    }
  }

  /** Two durations of an hour or more that print the same agree to the minute. */
  lemma FormatDurationDistinguishes(a: nat, b: nat)
    requires a >= 3600 && b >= 3600 && FormatDuration(a) == FormatDuration(b)
    ensures a / 60 == b / 60
  {
    FormatDurationReads(a);
    FormatDurationReads(b);
    DivUnique(a / 60, a / 3600, a % 3600 / 60, 60);
    DivUnique(b / 60, b / 3600, b % 3600 / 60, 60);
  }

  // ---------------------------------------------------------------------
  // formatDurationClock

  /** `n.toString().padStart(2, '0')`. */
  function Pad2(n: nat): (r: string)
    ensures |r| >= 2
    ensures n < 100 ==> |r| == 2
  {
    DecimalLength(n);
    if n < 10 then "0" + Decimal(n)
    else
      TwoDigits(n);
      Decimal(n)
  }

  /** The padded numeral is all digits and still reads as `n`. */
  lemma Pad2Reads(n: nat)
    ensures forall i :: 0 <= i < |Pad2(n)| ==> IsDigit(Pad2(n)[i])
    ensures ValueOf(Pad2(n)) == n
  {
    DecimalRoundTrip(n);
    if n < 10 {
      ValueOfLeadingZero(Decimal(n));
    }
  }

  lemma TwoDigits(n: nat)
    ensures n < 100 ==> |Decimal(n)| <= 2
    ensures n >= 10 ==> |Decimal(n)| >= 2
  {
    DecimalLength(n);
    if 10 <= n {
      DecimalLength(n / 10);
    }
  }

  /** "HH:MM:SS", every field at least two digits wide. */
  function FormatDurationClock(seconds: nat): string
  {
    var c := SplitSeconds(seconds);
    Pad2(c.hours) + ":" + Pad2(c.minutes) + ":" + Pad2(c.secs)
  }

  /** At least eight characters: digits, with colons third and sixth from
      the end. */
  lemma FormatDurationClockShape(seconds: nat)
    ensures var r := FormatDurationClock(seconds);
      && |r| >= 8 && r[|r| - 3] == ':' && r[|r| - 6] == ':'
      && forall i :: 0 <= i < |r| && i != |r| - 3 && i != |r| - 6 ==> IsDigit(r[i])
  {
    var c := SplitSeconds(seconds);
    var h, m, sec := Pad2(c.hours), Pad2(c.minutes), Pad2(c.secs);
    var r := FormatDurationClock(seconds);
    Pad2Reads(c.hours);
    Pad2Reads(c.minutes);
    Pad2Reads(c.secs);
    assert |m| == 2 && |sec| == 2;
    forall i | 0 <= i < |r| && i != |r| - 3 && i != |r| - 6
      ensures IsDigit(r[i])
    {
      if i < |h| { assert r[i] == h[i]; }
      else if i < |h| + 3 { assert r[i] == m[i - |h| - 1]; }
      else { assert r[i] == sec[i - |h| - 4]; }
    }
  }

  /** A colon followed by a number. */
  function ColonField(s: string): Option<(nat, string)> {
    if s != [] && s[0] == ':' then ReadNat(s[1..]) else None
  }

  /** Reads "H:M:S" back as a number of seconds. */
  function ParseClock(s: string): Option<nat> {
    match ReadNat(s)
    case Some((h, r1)) =>
      (match ColonField(r1)
       case Some((m, r2)) =>
         (match ColonField(r2)
          case Some((sec, r3)) => if r3 == [] then Some(h * 3600 + m * 60 + sec) else None
          case None => None)
       case None => None)
    case None => None
  }

  /** `ParseClock` in terms of the three fields it reads. */
  lemma ParseClockFields(s: string, h: nat, m: nat, sec: nat, r1: string, r2: string)
    requires ReadNat(s) == Some((h, r1))
    requires ColonField(r1) == Some((m, r2))
    requires ColonField(r2) == Some((sec, []))
    ensures ParseClock(s) == Some(h * 3600 + m * 60 + sec)
  {
  }

  /** How the clock string splits at its first colon and at its second. */
  lemma ClockSplits(h: string, m: string, sec: string)
    ensures h + ":" + m + ":" + sec == h + (":" + m + ":" + sec)
    ensures (":" + m + ":" + sec)[1..] == m + (":" + sec)
    ensures (":" + sec)[1..] == sec + []
  {
  }

  /** A padded field followed by a colon or by nothing reads back whole. */
  lemma ReadPad2(n: nat, rest: string)
    requires rest == [] || rest[0] == ':'
    ensures ReadNat(Pad2(n) + rest) == Some((n, rest))
  {
    Pad2Reads(n);
    ReadDigits(Pad2(n), rest);
  }

  /** Three padded fields joined by colons read back as their seconds. */
  lemma ReadsClock(h: nat, m: nat, sec: nat)
    ensures ParseClock(Pad2(h) + ":" + Pad2(m) + ":" + Pad2(sec)) == Some(h * 3600 + m * 60 + sec)
  {
    var r1, r2 := ":" + Pad2(m) + ":" + Pad2(sec), ":" + Pad2(sec);
    ClockSplits(Pad2(h), Pad2(m), Pad2(sec));
    ReadPad2(h, r1);
    ReadPad2(m, r2);
    ReadPad2(sec, []);
    ParseClockFields(Pad2(h) + ":" + Pad2(m) + ":" + Pad2(sec), h, m, sec, r1, r2);
  }

  /** The clock form loses nothing: it reads back as the same number of seconds. */
  lemma FormatDurationClockRoundTrip(seconds: nat)
    ensures ParseClock(FormatDurationClock(seconds)) == Some(seconds)
  {
    var c := SplitSeconds(seconds);
    ReadsClock(c.hours, c.minutes, c.secs);
    assert c.hours * 3600 + c.minutes * 60 + c.secs == TotalSeconds(c);
  }

  // ---------------------------------------------------------------------
  // formatDurationLong

  /** ` word` with an "s" unless the count is 1. */
  function Unit(n: nat, word: string): string {
    " " + word + (if n != 1 then "s" else "")
  }

  /** "H hour(s) M min(s)" from an hour on, "M minute(s)" below. */
  function FormatDurationLong(seconds: nat): string
  {
    var c := SplitSeconds(seconds);
    if c.hours > 0 then Decimal(c.hours) + (Unit(c.hours, "hour") + " " + Decimal(c.minutes) + Unit(c.minutes, "min"))
    else Decimal(c.minutes) + Unit(c.minutes, "minute")
  }

  /** The long form leads with the hours from an hour on, and with the
      minutes below; the hour word is plural unless there is exactly one
      hour, and the last word unless there is exactly one minute. */
  lemma FormatDurationLongReads(seconds: nat)
    ensures var r := FormatDurationLong(seconds);
      && (seconds >= 3600 ==> ReadNat(r).Some? && ReadNat(r).value.0 == seconds / 3600)
      && (seconds < 3600 ==> ReadNat(r).Some? && ReadNat(r).value.0 == seconds / 60)
      && (seconds >= 3600 ==>
            var k := |Decimal(seconds / 3600)|;
            k + 6 <= |r| && r[k..k + 5] == " hour" && (r[k + 5] == 's' <==> seconds / 3600 != 1))
      && (r[|r| - 1] == 's' <==> seconds % 3600 / 60 != 1)
  {
    var c := SplitSeconds(seconds);
    assert c.hours == seconds / 3600 && c.minutes == seconds % 3600 / 60;
    if seconds >= 3600 {
      assert c.hours > 0;
      LongHours(c.hours, c.minutes);
    } else {
      assert c.hours == 0 && c.minutes == seconds / 60;
      LongMinutes(c.minutes);
    }
  }

  lemma Regroup(a: string, b: string, c: string)
    ensures a + (b + c) == a + b + c
  {
  }

  /** Where the hour unit sits in "<d> hour(s) <t1><t2>". */
  lemma HourUnitAt(d: string, h: nat, t1: string, t2: string)
    ensures var r := d + (Unit(h, "hour") + " " + t1 + t2);
      |d| + 6 <= |r| && r[|d|..|d| + 5] == " hour" && (r[|d| + 5] == 's' <==> h != 1)
  {
    var u := Unit(h, "hour");
    var r := d + (u + " " + t1 + t2);
    assert r[|d|..|d| + 5] == u[..5];
    assert r[|d| + 5] == (if h != 1 then 's' else ' ');
  }

  /** The last letter of a text ending in a unit is its plural "s", if any. */
  lemma UnitLast(p: string, n: nat, word: string)
    requires word != [] && word[|word| - 1] != 's'
    ensures var r := p + Unit(n, word); r != [] && (r[|r| - 1] == 's' <==> n != 1)
  {
    var u := Unit(n, word);
    assert |u| == |word| + 1 + (if n != 1 then 1 else 0);
    assert u[|u| - 1] == (if n != 1 then 's' else word[|word| - 1]);
    assert (p + u)[|p + u| - 1] == u[|u| - 1];
  }

  lemma LongHours(h: nat, m: nat)
    requires h > 0
    ensures var r := Decimal(h) + (Unit(h, "hour") + " " + Decimal(m) + Unit(m, "min"));
      && ReadNat(r) == Some((h, Unit(h, "hour") + " " + Decimal(m) + Unit(m, "min")))
      && var k := |Decimal(h)|;
      k + 6 <= |r| && r[k..k + 5] == " hour" && (r[k + 5] == 's' <==> h != 1)
      && (r[|r| - 1] == 's' <==> m != 1)
  {
    var x := Unit(h, "hour") + " " + Decimal(m);
    ReadDecimal(h, x + Unit(m, "min"));
    HourUnitAt(Decimal(h), h, Decimal(m), Unit(m, "min"));
    Regroup(Decimal(h), x, Unit(m, "min"));
    UnitLast(Decimal(h) + x, m, "min");
  }

  lemma LongMinutes(m: nat)
    ensures var r := Decimal(m) + Unit(m, "minute");
      ReadNat(r) == Some((m, Unit(m, "minute"))) && (r[|r| - 1] == 's' <==> m != 1)
  {
    var r := Decimal(m) + Unit(m, "minute");
    ReadDecimal(m, Unit(m, "minute"));
    assert r[|r| - 1] == Unit(m, "minute")[|Unit(m, "minute")| - 1];
  }

  // ---------------------------------------------------------------------
  // getDaysBetween

  /** The days from `start` to `end`, one day apart; a calendar day is taken
      to be 86 400 000 ms. */
  method DaysBetween(start: int, end: int) returns (days: seq<int>)
    ensures start > end ==> days == []
    ensures start <= end ==> |days| == (end - start) / DAY_MS + 1
    ensures forall i :: 0 <= i < |days| ==> days[i] == start + i * DAY_MS
    ensures forall i :: 0 <= i < |days| ==> days[i] <= end
    ensures start + |days| * DAY_MS > end
  {
    days := [];
    var current := start;
    while current <= end
      invariant current == start + |days| * DAY_MS
      invariant start <= end ==> current <= end + DAY_MS
      invariant start > end ==> days == []
      invariant forall i :: 0 <= i < |days| ==> days[i] == start + i * DAY_MS
      invariant forall i :: 0 <= i < |days| ==> days[i] <= end
      decreases end - current + DAY_MS
    {
      days := days + [current];
      current := current + DAY_MS;
    }
    if start <= end {
      DivUnique(end - start, |days| - 1, end - start - (|days| - 1) * DAY_MS, DAY_MS);
    }
  }

  // ---------------------------------------------------------------------
  // getRelativeTime

  /** How long ago a moment was, as `getRelativeTime` words it; from a week
      on it shows the date itself. */
  datatype Relative = JustNow | MinutesAgo(n: nat) | HoursAgo(n: nat) | DaysAgo(n: nat) | OnDate(date: int)

  lemma FloorTwice(x: int, a: int, b: int)
    requires a > 0 && b > 0
    ensures (x / a) / b == x / (a * b)
  {
    var q, r1 := (x / a) / b, (x / a) % b;
    var r0 := x % a;
    assert x == (q * b + r1) * a + r0;
    assert x == q * (a * b) + (r1 * a + r0);
    assert 0 <= r1 * a + r0 < a * b by {
      assert r1 * a <= (b - 1) * a;
    }
    DivUnique(x, q, r1 * a + r0, a * b);
  }

  /** The cascade of `Math.floor`s on the difference `now - date` in ms. */
  function RelativeTime(now: int, date: int): (r: Relative)
    ensures r == JustNow <==> now - date < MINUTE_MS
    ensures r.MinutesAgo? <==> MINUTE_MS <= now - date < HOUR_MS
    ensures r.HoursAgo? <==> HOUR_MS <= now - date < DAY_MS
    ensures r.DaysAgo? <==> DAY_MS <= now - date < 7 * DAY_MS
    ensures r.OnDate? <==> now - date >= 7 * DAY_MS
    ensures r.MinutesAgo? ==> 1 <= r.n < 60 && r.n * MINUTE_MS <= now - date < (r.n + 1) * MINUTE_MS
    ensures r.HoursAgo? ==> 1 <= r.n < 24 && r.n * HOUR_MS <= now - date < (r.n + 1) * HOUR_MS
    ensures r.DaysAgo? ==> 1 <= r.n < 7 && r.n * DAY_MS <= now - date < (r.n + 1) * DAY_MS
    ensures r.OnDate? ==> r.date == date
  {
    var diffMs := now - date;
    var diffSecs := diffMs / 1000;
    var diffMins := diffSecs / 60;
    var diffHours := diffMins / 60;
    var diffDays := diffHours / 24;
    FloorTwice(diffMs, 1000, 60);
    FloorTwice(diffMs, 60000, 60);
    FloorTwice(diffMs, 3600000, 24);
    if diffSecs < 60 then JustNow
    else if diffMins < 60 then MinutesAgo(diffMins)
    else if diffHours < 24 then HoursAgo(diffHours)
    else if diffDays < 7 then DaysAgo(diffDays)
    else OnDate(date)
  }

  /** The words; a date a week or more back is written by the host's
      `formatDate`. */
  function RelativeText(r: Relative, formatDate: int -> string): (s: string)
    ensures r.MinutesAgo? ==> ReadNat(s) == Some((r.n, "m ago"))
    ensures r.HoursAgo? ==> ReadNat(s) == Some((r.n, "h ago"))
    ensures r.DaysAgo? ==> ReadNat(s) == Some((r.n, "d ago"))
  {
    match r
    case JustNow => "Just now"
    case MinutesAgo(n) => ReadDecimal(n, "m ago"); Decimal(n) + "m ago"
    case HoursAgo(n) => ReadDecimal(n, "h ago"); Decimal(n) + "h ago"
    case DaysAgo(n) => ReadDecimal(n, "d ago"); Decimal(n) + "d ago"
    case OnDate(d) => formatDate(d)
  }
}
