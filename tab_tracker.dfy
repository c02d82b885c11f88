/** The browser-tab tracker (src/hooks/useTabTracker.ts): a page's visible
    time is cut into sessions at title changes, visibility changes and idle
    time-outs; each session long enough becomes an activity, which either
    folds into the last pending activity of the same title or is appended
    to the pending list and counted. */
module TabTracker {
  import opened Text
  import opened Activities

  // ---------------------------------------------------------------------
  // cleanTitle

  /** `[-–—|]`: a hyphen, an en dash, an em dash or a vertical bar. */
  predicate IsSeparator(c: char) {
    c == '-' || c == '\U{2013}' || c == '\U{2014}' || c == '|'
  }

  predicate NoSeparator(s: string) {
    forall i :: 0 <= i < |s| ==> !IsSeparator(s[i])
  }

  predicate NoLineTerminator(s: string) {
    forall i :: 0 <= i < |s| ==> !IsLineTerminator(s[i])
  }

  /** The length of the run of white space at the start of `s`: what a
      greedy `\s*` takes there. */
  function SpaceRun(s: string): (n: nat)
    ensures n <= |s|
  {
    if s == [] || !IsSpace(s[0]) then 0 else 1 + SpaceRun(s[1..])
  }

  lemma {:induction false} SpaceRunSpec(s: string)
    ensures var n := SpaceRun(s);
      && (forall i :: 0 <= i < n ==> IsSpace(s[i]))
      && (n == |s| || !IsSpace(s[n]))
  {
    if s != [] && IsSpace(s[0]) {
      SpaceRunSpec(s[1..]);
      assert forall i :: 1 <= i < SpaceRun(s) ==> s[i] == s[1..][i - 1];
    }
  }

  /** `(Google Chrome|Firefox|Safari|Microsoft Edge)` under the `i` flag: the
      names are ASCII, and without the `u` flag no other character folds
      onto an ASCII letter, so comparing the ASCII lower case is exact. */
  predicate StartsWithBrowser(s: string) {
    var l := Lower(s);
    HasPrefix(l, "google chrome") || HasPrefix(l, "firefox") || HasPrefix(l, "safari")
    || HasPrefix(l, "microsoft edge")
  }

  /** Whether `\s*[-–—|]\s*(Google Chrome|Firefox|Safari|Microsoft Edge).*$`
      matches from position `p`. White space is neither a separator nor the
      first letter of a name, so each `\s*` takes its whole run. */
  predicate BrowserSuffixAt(s: string, p: nat)
    requires p <= |s|
  {
    SeparatedBrowser(s, p + SpaceRun(s[p..]))
  }

  /** The rest of the pattern from the separator at `q` on: white space,
      a browser name, and (for `.*$`) no line terminator after it. */
  predicate SeparatedBrowser(s: string, q: nat)
    requires q <= |s|
  {
    q < |s| && IsSeparator(s[q])
    && var r := q + 1 + SpaceRun(s[q + 1..]);
    StartsWithBrowser(s[r..]) && NoLineTerminator(s[r..])
  }

  /** Whether `\s*[-–—|]\s*[^-–—|]*$` matches from position `p`: white
      space up to a separator after which no separator follows. */
  predicate LastSegmentAt(s: string, p: nat)
    requires p <= |s|
  {
    var q := p + SpaceRun(s[p..]);
    q < |s| && IsSeparator(s[q]) && NoSeparator(s[q + 1..])
  }

  /** The leftmost position from `p` on where the browser-suffix pattern
      matches, or `|s|` when there is none. */
  function BrowserSuffixFrom(s: string, p: nat): (r: nat)
    requires p <= |s|
    ensures p <= r <= |s|
    decreases |s| - p
  {
    if p == |s| then |s| else if BrowserSuffixAt(s, p) then p else BrowserSuffixFrom(s, p + 1)
  }

  function LastSegmentFrom(s: string, p: nat): (r: nat)
    requires p <= |s|
    ensures p <= r <= |s|
    decreases |s| - p
  {
    if p == |s| then |s| else if LastSegmentAt(s, p) then p else LastSegmentFrom(s, p + 1)
  }

  /** The search finds a match where it stops short of the end, and none
      before that. */
  lemma {:induction false} BrowserSuffixFromSpec(s: string, p: nat)
    requires p <= |s|
    ensures var r := BrowserSuffixFrom(s, p);
      && (r < |s| ==> BrowserSuffixAt(s, r))
      && forall i :: p <= i < r ==> !BrowserSuffixAt(s, i)
    decreases |s| - p
  {
    if p < |s| && !BrowserSuffixAt(s, p) {
      BrowserSuffixFromSpec(s, p + 1);
    }
  }

  lemma {:induction false} LastSegmentFromSpec(s: string, p: nat)
    requires p <= |s|
    ensures var r := LastSegmentFrom(s, p);
      && (r < |s| ==> LastSegmentAt(s, r))
      && forall i :: p <= i < r ==> !LastSegmentAt(s, i)
    decreases |s| - p
  {
    if p < |s| && !LastSegmentAt(s, p) {
      LastSegmentFromSpec(s, p + 1);
    }
  }

  /** `replace(/\s*[-–—|]\s*(Google Chrome|Firefox|Safari|Microsoft Edge).*$/i, '')`:
      the leftmost match runs to the end, so the text before it is kept. */
  function CutBrowserSuffix(s: string): (r: string)
    ensures |r| <= |s|
  {
    s[..BrowserSuffixFrom(s, 0)]
  }

  /** `replace(/\s*[-–—|]\s*[^-–—|]*$/, '')`: drops the last separator, the
      white space before it and the segment after it. */
  function CutLastSegment(s: string): (r: string)
    ensures |r| <= |s|
  {
    s[..LastSegmentFrom(s, 0)]
  }

  /** `cleanTitle`: the browser suffix, then the last segment, are cut off;
      the rest is trimmed, and an empty result becomes "Untitled". */
  function CleanTitle(title: string): (r: string)
    ensures r != []
  {
    OrElse(Trim(CutLastSegment(CutBrowserSuffix(title))), "Untitled")
  }

  /** The cleaned title is "Untitled" or the trimmed front part of the
      title, with no white space at either end. */
  lemma CleanTitleShape(title: string)
    ensures var r := CleanTitle(title);
      && (r == "Untitled" || exists k :: 0 <= k <= |title| && r == Trim(title[..k]))
      && !IsSpace(r[0]) && !IsSpace(r[|r| - 1])
  {
    var a := BrowserSuffixFrom(title, 0);
    var c := CutBrowserSuffix(title);
    var k := LastSegmentFrom(c, 0);
    assert CutLastSegment(c) == title[..k];
    TrimSpec(title[..k]);
  }

  /** A pattern that needs a separator finds nothing in a text without one. */
  lemma NoSeparatorNoCut(s: string)
    requires NoSeparator(s)
    ensures CutBrowserSuffix(s) == s && CutLastSegment(s) == s
  {
    BrowserSuffixFromSpec(s, 0);
    LastSegmentFromSpec(s, 0);
  }

  /** A title without separators is only trimmed. */
  lemma PlainTitle(title: string)
    requires NoSeparator(title)
    ensures CleanTitle(title) == OrElse(Trim(title), "Untitled")
  {
    NoSeparatorNoCut(title);
  }

  /** A trimmed non-empty text without separators. */
  predicate Segment(b: string) {
    b != [] && !IsSpace(b[0]) && !IsSpace(b[|b| - 1]) && NoSeparator(b)
  }

  lemma SegmentTrimmed(b: string)
    requires Segment(b)
    ensures Trim(b) == b
  {
    TrimSpec(b);
  }

  /** Neither pattern can start inside a segment at the front of `s`: the
      white space from there stops at a letter of the segment, which is no
      separator. */
  lemma NoMatchInSegment(s: string, b: string, p: nat)
    requires Segment(b) && |b| <= |s| && s[..|b|] == b && p < |b|
    ensures !BrowserSuffixAt(s, p) && !LastSegmentAt(s, p)
  {
    SpaceRunSpec(s[p..]);
    var q := p + SpaceRun(s[p..]);
    assert s[q] == b[q];
  }

  /** "Page - Site" cleans to "Page". */
  lemma PageAndSite(b: string, site: string)
    requires Segment(b) && NoSeparator(site)
    ensures CleanTitle(b + " - " + site) == b
  {
    var s := b + " - " + site;
    assert s[..|b|] == b;
    LastCutAt(s, b, site);
    BrowserSuffixFromSpec(s, 0);
    var a := BrowserSuffixFrom(s, 0);
    forall p | 0 <= p < |b| ensures !BrowserSuffixAt(s, p) {
      NoMatchInSegment(s, b, p);
    }
    SegmentTrimmed(b);
    if a == |b| {
      assert CutBrowserSuffix(s) == b;
      NoSeparatorNoCut(b);
    } else {
      BrowserCutOnlyAtSegment(s, b, site, a);
      assert CutBrowserSuffix(s) == s;
    }
  }

  /** "Page - Firefox" cleans to "Page": the browser suffix goes first, and
      what is left has no separator. */
  lemma PageAndBrowser(b: string, name: string)
    requires Segment(b) && name != [] && !IsSpace(name[0])
    requires StartsWithBrowser(name) && NoLineTerminator(name)
    ensures CleanTitle(b + " - " + name) == b
  {
    var s := b + " - " + name;
    assert s[..|b|] == b;
    BrowserSuffixFromSpec(s, 0);
    forall p | 0 <= p < |b| ensures !BrowserSuffixAt(s, p) {
      NoMatchInSegment(s, b, p);
    }
    BrowserSuffixHere(s, b, name);
    assert CutBrowserSuffix(s) == b;
    NoSeparatorNoCut(b);
    SegmentTrimmed(b);
  }

  lemma BrowserSuffixHere(s: string, b: string, name: string)
    requires s == b + " - " + name && name != [] && !IsSpace(name[0])
    requires StartsWithBrowser(name) && NoLineTerminator(name)
    ensures BrowserSuffixAt(s, |b|)
  {
    SpaceRunStep(s, |b|);
    assert s[|b| + 1..][0] == '-';
    SpaceRunStep(s, |b| + 2);
    assert s[|b| + 3..] == name;
  }

  /** In "Page - Site" the last segment starts right after the page. */
  lemma LastCutAt(s: string, b: string, site: string)
    requires Segment(b) && NoSeparator(site) && s == b + " - " + site
    ensures LastSegmentFrom(s, 0) == |b|
  {
    assert s[..|b|] == b;
    LastSegmentFromSpec(s, 0);
    var k := LastSegmentFrom(s, 0);
    forall p | 0 <= p < |b| ensures !LastSegmentAt(s, p) {
      NoMatchInSegment(s, b, p);
    }
    assert s[|b|..] == " - " + site;
    SpaceRunSpec(s[|b|..]);
    assert SpaceRun(s[|b|..]) == 1;
    assert s[|b| + 2..] == " " + site;
    assert LastSegmentAt(s, |b|);
  }

  /** In "Page - Site" the browser-suffix pattern can only start at the end
      of the page, so the first cut is there or nowhere. */
  lemma BrowserCutOnlyAtSegment(s: string, b: string, site: string, a: nat)
    requires Segment(b) && NoSeparator(site) && s == b + " - " + site
    requires |b| < a <= |s| && (a < |s| ==> BrowserSuffixAt(s, a))
    requires !BrowserSuffixAt(s, |b|)
    ensures a == |s|
  {
    SuffixAfterSpace(s, |b|);
    NoSuffixInSite(s, b, site);
  }

  /** White space before a match start does not change what matches. */
  lemma SuffixAfterSpace(s: string, p: nat)
    requires p < |s| && IsSpace(s[p])
    ensures BrowserSuffixAt(s, p) == BrowserSuffixAt(s, p + 1)
  {
    SpaceRunStep(s, p);
  }

  lemma SpaceRunStep(s: string, p: nat)
    requires p < |s| && IsSpace(s[p])
    ensures p + SpaceRun(s[p..]) == p + 1 + SpaceRun(s[p + 1..])
  {
    assert s[p..][1..] == s[p + 1..];
  }

  /** In "Page - Site" the browser-suffix pattern cannot start after the
      separator, since the site has no separator of its own. */
  lemma NoSuffixInSite(s: string, b: string, site: string)
    requires NoSeparator(site) && s == b + " - " + site
    ensures forall a :: |b| + 2 <= a < |s| ==> !BrowserSuffixAt(s, a)
  {
    forall a | |b| + 2 <= a < |s|
      ensures !BrowserSuffixAt(s, a)
    {
      SpaceRunSpec(s[a..]);
      var q := a + SpaceRun(s[a..]);
      assert s[|b| + 2] == ' ';
      assert q < |s| && q >= |b| + 3 ==> s[q] == site[q - |b| - 3];
    }
  }

  // ---------------------------------------------------------------------
  // getBrowserInfo and extractDomain

  /** `getBrowserInfo`: the first of Chrome, Firefox, Safari and Edge that
      the user-agent string mentions, or "Browser". */
  function BrowserName(userAgent: string): (r: string)
    ensures Includes(userAgent, "Chrome") ==> r == "Chrome"
    ensures r == "Edge" ==> !Includes(userAgent, "Chrome") && !Includes(userAgent, "Safari")
  {
    if Includes(userAgent, "Chrome") then "Chrome"
    else if Includes(userAgent, "Firefox") then "Firefox"
    else if Includes(userAgent, "Safari") then "Safari"
    else if Includes(userAgent, "Edge") then "Edge"
    else "Browser"
  }

  /** The first position from `i` on where `pattern` occurs, or -1. */
  function IndexFrom(text: string, pattern: string, i: nat): (r: int)
    requires i <= |text|
    ensures r == -1 || (i <= r && OccursAt(text, pattern, r))
    ensures r >= 0 ==> forall j :: i <= j < r ==> !OccursAt(text, pattern, j)
    ensures r == -1 ==> forall j :: i <= j ==> !OccursAt(text, pattern, j)
    decreases |text| - i
  {
    if i + |pattern| > |text| then -1
    else if text[i..i + |pattern|] == pattern then i
    else if i == |text| then -1
    else IndexFrom(text, pattern, i + 1)
  }

  lemma {:induction false} IndexFromNone(text: string, pattern: string, i: nat)
    requires i <= |text|
    requires forall j :: i <= j <= |text| - |pattern| ==> !OccursAt(text, pattern, j)
    ensures IndexFrom(text, pattern, i) == -1
    decreases |text| - i
  {
    if i + |pattern| <= |text| && i < |text| {
      assert !OccursAt(text, pattern, i);
      IndexFromNone(text, pattern, i + 1);
    }
  }

  /** `String.prototype.replace` with a string pattern: only the first
      occurrence is replaced, wherever it is. */
  function ReplaceFirst(text: string, pattern: string, replacement: string): string {
    var k := IndexFrom(text, pattern, 0);
    if k < 0 then text else text[..k] + replacement + text[k + |pattern|..]
  }

  /** `extractDomain`: the host name without its first "www.", or "Unknown"
      for a URL that does not parse. Parsing is the host's: `host` is what
      `new URL(url).hostname` gives, `None` when the constructor throws. */
  function ExtractDomain(host: Option<string>): string {
    match host
    case None => "Unknown"
    case Some(h) => ReplaceFirst(h, "www.", "")
  }

  /** A leading "www." is dropped. */
  lemma DomainDropsWww(h: string)
    ensures ExtractDomain(Some("www." + h)) == h
  {
    var t := "www." + h;
    assert t[0..4] == "www.";
    assert IndexFrom(t, "www.", 0) == 0;
    assert t[4..] == h;
  }

  /** A host without "www." is kept as it is. */
  lemma DomainWithoutWww(h: string)
    requires !Includes(h, "www.")
    ensures ExtractDomain(Some(h)) == h
  {
    IndexFromNone(h, "www.", 0);
  }

  // ---------------------------------------------------------------------
  // Settings, sessions and the tracker's state

  /** Durations are in whole seconds; the idle time-out, the minimum
      duration and the merge threshold too. */
  datatype TabSettings = TabSettings(
    enabled: bool,
    idleTimeout: int,
    minimumActivityDuration: int,
    trackIdleTime: bool,
    autoMergeShortActivities: bool,
    mergeThreshold: int)

  const DEFAULT_SETTINGS := TabSettings(true, 300, 10, true, true, 30)

  /** Some of the settings, as stored or as handed to `updateSettings`. */
  datatype SettingsUpdate = SettingsUpdate(
    enabled: Option<bool>,
    idleTimeout: Option<int>,
    minimumActivityDuration: Option<int>,
    trackIdleTime: Option<bool>,
    autoMergeShortActivities: Option<bool>,
    mergeThreshold: Option<int>)

  function Given<T>(o: Option<T>, d: T): T {
    if o.Some? then o.value else d
  }

  /** `{ ...settings, ...updates }`: a given field replaces the old one, the
      others stay. */
  function Updated(settings: TabSettings, u: SettingsUpdate): TabSettings {
    TabSettings(
      Given(u.enabled, settings.enabled),
      Given(u.idleTimeout, settings.idleTimeout),
      Given(u.minimumActivityDuration, settings.minimumActivityDuration),
      Given(u.trackIdleTime, settings.trackIdleTime),
      Given(u.autoMergeShortActivities, settings.autoMergeShortActivities),
      Given(u.mergeThreshold, settings.mergeThreshold))
  }

  /** Applying an update twice is applying it once, and an update that
      gives nothing changes nothing. */
  lemma UpdatedIdempotent(settings: TabSettings, u: SettingsUpdate)
    ensures Updated(Updated(settings, u), u) == Updated(settings, u)
    ensures Updated(settings, SettingsUpdate(None, None, None, None, None, None)) == settings
  {
  }

  /** A stretch of one page's time; times are millisecond time stamps. */
  datatype TabSession = TabSession(
    id: string,
    title: string,
    url: string,
    startTime: int,
    isActive: bool,
    isIdle: bool)

  /** The state the page shows. `lastActivityTime` and `idleStartTime` are
      millisecond time stamps; the two totals are in seconds. */
  datatype TrackerState = TrackerState(
    isTracking: bool,
    currentSession: Option<TabSession>,
    isIdle: bool,
    idleStartTime: Option<int>,
    lastActivityTime: int,
    totalActiveTime: int,
    totalIdleTime: int,
    sessionsToday: int)

  // ---------------------------------------------------------------------
  // completeSession, as functions of its inputs

  /** The activity a session ending at `now` gives: its duration is the
      whole seconds elapsed, rounded down, and it is idle when the caller
      says so or the session was an idle one. */
  function SessionActivity(s: TabSession, now: int, id: string, browser: string, domain: string,
                           isIdle: bool): (a: Activity)
    ensures a.duration * 1000 <= now - s.startTime < a.duration * 1000 + 1000
    ensures a.startTime == s.startTime && a.endTime == now
    ensures a.isIdle <==> isIdle || s.isIdle
    ensures !a.isCoded && a.projectId.None? && a.taskId.None? && a.subtaskId.None?
    ensures a.id == id && a.applicationName == browser && a.windowTitle == CleanTitle(s.title) + " - " + domain
  {
    Activity(id, browser, CleanTitle(s.title) + " - " + domain, s.startTime, now, (now - s.startTime) / 1000,
             None, None, None, false, isIdle || s.isIdle)
  }

  /** Whether the new activity `a` of session `s` folds into the last pending
      one: merging is on, there is a pending activity, the session began
      less than the threshold after that one ended (the gap is compared in
      exact seconds), the window titles are the same and that one is not
      coded yet. */
  predicate MergesInto(settings: TabSettings, pending: seq<Activity>, s: TabSession, a: Activity) {
    && settings.autoMergeShortActivities
    && |pending| > 0
    && s.startTime - pending[|pending| - 1].endTime < settings.mergeThreshold * 1000
    && pending[|pending| - 1].windowTitle == a.windowTitle
    && !pending[|pending| - 1].isCoded
  }

  /** The last activity stretched to the end of `a`: its duration grows by
      that of `a` and by the whole seconds of the gap between them. */
  function Merge(last: Activity, s: TabSession, a: Activity): Activity {
    last.(endTime := a.endTime, duration := last.duration + a.duration + (s.startTime - last.endTime) / 1000)
  }

  /** What completing a session does with its activity. */
  datatype Outcome = Dropped | Merged(merged: Activity) | Logged(logged: Activity)

  function Complete(settings: TabSettings, pending: seq<Activity>, s: TabSession, a: Activity): Outcome {
    if a.duration < settings.minimumActivityDuration then Dropped
    else if MergesInto(settings, pending, s, a) then Merged(Merge(pending[|pending| - 1], s, a))
    else Logged(a)
  }

  /** The pending list after an outcome: a merge replaces the last element,
      a logged activity is appended. */
  function Pending(pending: seq<Activity>, o: Outcome): seq<Activity> {
    match o
    case Dropped => pending
    case Merged(m) => if pending == [] then [m] else pending[..|pending| - 1] + [m]
    case Logged(a) => pending + [a]
  }

  /** What `onActivityComplete` is called with. */
  function Reports(o: Outcome): seq<Activity> {
    match o
    case Dropped => []
    case Merged(m) => [m]
    case Logged(a) => [a]
  }

  /** Only a logged activity is counted: as a session, and its duration as
      idle time when the caller's `isIdle` is set and as active time
      otherwise, whatever the session itself was. */
  function Counted(state: TrackerState, o: Outcome, isIdle: bool): TrackerState {
    if o.Logged? then
      state.(sessionsToday := state.sessionsToday + 1,
             totalActiveTime := state.totalActiveTime + (if isIdle then 0 else o.logged.duration),
             totalIdleTime := state.totalIdleTime + (if isIdle then o.logged.duration else 0))
    else state
  }

  /** A session shorter than the minimum is dropped; a long enough one is
      merged exactly when the merge conditions hold, and logged otherwise. */
  lemma CompleteCases(settings: TabSettings, pending: seq<Activity>, s: TabSession, a: Activity)
    ensures var o := Complete(settings, pending, s, a);
      && (o.Dropped? <==> a.duration < settings.minimumActivityDuration)
      && (o.Merged? <==> a.duration >= settings.minimumActivityDuration && MergesInto(settings, pending, s, a))
      && (o.Logged? <==> a.duration >= settings.minimumActivityDuration && !MergesInto(settings, pending, s, a))
      && (o.Logged? ==> o.logged == a)
  {
  }

  /** A merge keeps the length of the pending list and every element but
      the last; the last keeps its identity, title, start and coding, ends
      where the new activity ends, and its duration adds the new one's and
      the gap's. A logged activity is appended; a dropped one changes
      nothing. Nothing that completion adds is coded. */
  lemma {:induction false} CompletePending(settings: TabSettings, pending: seq<Activity>, s: TabSession, a: Activity)
    requires !a.isCoded
    ensures var o := Complete(settings, pending, s, a);
      var p := Pending(pending, o);
      && (o.Dropped? ==> p == pending)
      && (o.Logged? ==> p == pending + [a])
      && (o.Merged? ==>
        && |p| == |pending|
        && p[..|p| - 1] == pending[..|pending| - 1]
        && var last, m := pending[|pending| - 1], p[|p| - 1];
        && m == o.merged
        && m.id == last.id && m.windowTitle == last.windowTitle == a.windowTitle && m.startTime == last.startTime
        && m.endTime == a.endTime
        && m.duration == last.duration + a.duration + (s.startTime - last.endTime) / 1000)
      && (forall x :: x in Reports(o) ==> !x.isCoded)
  {
    var o := Complete(settings, pending, s, a);
    if o.Merged? {
      var n := |pending|;
      assert (pending[..n - 1] + [o.merged])[..n - 1] == pending[..n - 1];
    }
  }

  /** A merged activity spans from the start of the last one to the end of
      the new one; when both durations were the elapsed whole seconds, the
      merged duration falls short of the span's whole seconds by at most
      two, since each of the three parts is rounded down on its own. */
  lemma MergedSpan(last: Activity, s: TabSession, a: Activity)
    requires last.duration == (last.endTime - last.startTime) / 1000
    requires a.startTime == s.startTime && a.duration == (a.endTime - a.startTime) / 1000
    ensures var m := Merge(last, s, a);
      && m.startTime == last.startTime && m.endTime == a.endTime
      && (m.endTime - m.startTime) / 1000 - 2 <= m.duration <= (m.endTime - m.startTime) / 1000
  {
    var x, y, z := last.endTime - last.startTime, s.startTime - last.endTime, a.endTime - a.startTime;
    var qx, qy, qz, q := x / 1000, y / 1000, z / 1000, (x + y + z) / 1000;
    assert qx * 1000 <= x < qx * 1000 + 1000;
    assert qy * 1000 <= y < qy * 1000 + 1000;
    assert qz * 1000 <= z < qz * 1000 + 1000;
    assert q * 1000 <= x + y + z < q * 1000 + 1000;
    assert a.endTime - last.startTime == x + y + z;
  }

  // ---------------------------------------------------------------------
  // The counters and what was counted

  /** One counted completion: the seconds and whether they went to the idle
      total. */
  datatype Count = Count(seconds: int, asIdle: bool)

  function Counts(o: Outcome, isIdle: bool): seq<Count> {
    if o.Logged? then [Count(o.logged.duration, isIdle)] else []
  }

  function Seconds(counts: seq<Count>, asIdle: bool): int {
    if counts == [] then 0
    else
      var c := counts[|counts| - 1];
      Seconds(counts[..|counts| - 1], asIdle) + (if c.asIdle == asIdle then c.seconds else 0)
  }

  /** The counters are the sums of what was counted: one session per count,
      and the seconds of the idle counts and of the others. */
  predicate Agrees(state: TrackerState, counts: seq<Count>) {
    && state.sessionsToday == |counts|
    && state.totalIdleTime == Seconds(counts, true)
    && state.totalActiveTime == Seconds(counts, false)
  }

  /** Counting an outcome keeps the counters in step with the counts. */
  lemma CountedAgrees(state: TrackerState, counts: seq<Count>, o: Outcome, isIdle: bool)
    requires Agrees(state, counts)
    ensures Agrees(Counted(state, o, isIdle), counts + Counts(o, isIdle))
  {
    if o.Logged? {
      var c := Count(o.logged.duration, isIdle);
      assert (counts + [c])[..|counts|] == counts;
    } else {
      assert counts + [] == counts;
    }
  }

  // ---------------------------------------------------------------------
  // The hook

  /** The tracker of one page. The refs of the hook and its React state are
      fields; `onActivityComplete` is the record `reported` of what it was
      called with. Times come in as arguments (`now`), and so do the page's
      title, address and visibility, and the fresh ids that `generateId`
      would make. The browser and the URL parser are fixed. */
  class TabTracker {
    var settings: TabSettings
    const globalEnabled: bool
    var state: TrackerState
    var pending: seq<Activity>
    /** `sessionRef` */
    var session: Option<TabSession>
    /** `lastTitleRef` */
    var lastTitle: string
    /** `isIdleRef` and `idleStartRef` */
    var idleRef: bool
    var idleStart: Option<int>
    /** When the idle timer fires, if it is set. */
    var idleDeadline: Option<int>
    var reported: seq<Activity>
    ghost var counts: seq<Count>
    const userAgent: string
    /** `new URL(url).hostname`, or `None` where the constructor throws. */
    const hostOf: string -> Option<string>

    /** The open session is the one the state shows, and tracking has
        begun; the idle refs mirror the state's idle fields; the counters
        are the sums of what was counted. */
    ghost predicate Valid()
      reads this
    {
      && (session.Some? ==> state.isTracking && state.currentSession == session)
      && state.isIdle == idleRef && state.idleStartTime == idleStart
      && (idleRef <==> idleStart.Some?)
      && Agrees(state, counts)
    }

    /** The settings are the defaults overridden by what was stored; the
        pending list is the stored one. */
    constructor (stored: SettingsUpdate, storedPending: seq<Activity>, globalEnabled: bool, title: string,
                 userAgent: string, hostOf: string -> Option<string>, now: int)
      ensures Valid()
      ensures settings == Updated(DEFAULT_SETTINGS, stored) && pending == storedPending
      ensures state == TrackerState(false, None, false, None, now, 0, 0, 0)
      ensures session == None && lastTitle == title && !idleRef && idleDeadline == None && reported == []
      ensures this.globalEnabled == globalEnabled && this.userAgent == userAgent && this.hostOf == hostOf
    {
      settings := Updated(DEFAULT_SETTINGS, stored);
      this.globalEnabled := globalEnabled;
      state := TrackerState(false, None, false, None, now, 0, 0, 0);
      pending := storedPending;
      session := None;
      lastTitle := title;
      idleRef, idleStart, idleDeadline := false, None, None;
      reported := [];
      counts := [];
      this.userAgent := userAgent;
      this.hostOf := hostOf;
    }

    /** The activity the open session `s` gives when it ends at `now`. */
    function ActivityOf(s: TabSession, now: int, activityId: string, isIdle: bool): Activity {
      SessionActivity(s, now, activityId, BrowserName(userAgent), ExtractDomain(hostOf(s.url)), isIdle)
    }

    /** What completing the open session at `now` comes to. */
    function Completion(isIdle: bool, now: int, activityId: string): Outcome
      reads this`session, this`settings, this`pending
    {
      if session.None? then Dropped
      else Complete(settings, pending, session.value, ActivityOf(session.value, now, activityId, isIdle))
    }

    /** The decision `completeSession` takes for the open session: too
        short, merged into the last pending activity, or a new activity. */
    method Decide(isIdle: bool, now: int, activityId: string) returns (o: Outcome)
      requires session.Some?
      ensures o == Completion(isIdle, now, activityId)
    {
      var s := session.value;
      var duration := (now - s.startTime) / 1000;
      ghost var a := ActivityOf(s, now, activityId, isIdle);
      assert a.duration == duration;
      if duration < settings.minimumActivityDuration {
        return Dropped;
      }
      var activity := ActivityOf(s, now, activityId, isIdle);
      if settings.autoMergeShortActivities && |pending| > 0 {
        var last := pending[|pending| - 1];
        var gap := s.startTime - last.endTime;
        if gap < settings.mergeThreshold * 1000 && last.windowTitle == activity.windowTitle && !last.isCoded {
          return Merged(last.(endTime := activity.endTime, duration := last.duration + duration + gap / 1000));
        }
      }
      return Logged(activity);
    }

    /** The effects of an outcome: the pending list is updated, the
        callback is made, and a logged activity is counted. */
    method Record(o: Outcome, isIdle: bool)
      requires Valid()
      modifies this`pending, this`state, this`reported, this`counts
      ensures Valid()
      ensures pending == Pending(old(pending), o) && reported == old(reported) + Reports(o)
      ensures state == Counted(old(state), o, isIdle)
    {
      match o
      case Dropped =>
      case Merged(m) =>
        pending := Pending(pending, o);
        reported := reported + [m];
      case Logged(a) =>
        pending := pending + [a];
        reported := reported + [a];
        CountedAgrees(state, counts, o, isIdle);
        counts := counts + Counts(o, isIdle);
        state := Counted(state, o, isIdle);
    }

    /** `completeSession`: nothing without an open session; otherwise the
        session's activity is dropped, merged or logged, and the session is
        closed. */
    method CompleteSession(isIdle: bool, now: int, activityId: string)
      requires Valid()
      modifies this`pending, this`state, this`session, this`reported, this`counts
      ensures Valid()
      ensures session == None
      ensures pending == Pending(old(pending), old(Completion(isIdle, now, activityId)))
      ensures state == Counted(old(state), old(Completion(isIdle, now, activityId)), isIdle)
      ensures reported == old(reported) + Reports(old(Completion(isIdle, now, activityId)))
    {
      if session.None? {
        return;
      }
      var o := Decide(isIdle, now, activityId);
      Record(o, isIdle);
      session := None;
    }

    /** The session that `startSession` opens: an untitled page is
        "Untitled", and the session is active when the page is visible. */
    static function NewSession(id: string, title: string, url: string, now: int, hidden: bool): TabSession {
      TabSession(id, OrElse(title, "Untitled"), url, now, !hidden, false)
    }

    /** `startSession`: a new session opens on the page as it is now, and
        the state shows it. */
    method StartSession(now: int, sessionId: string, title: string, url: string, hidden: bool)
      requires Valid()
      modifies this`session, this`lastTitle, this`state
      ensures Valid()
      ensures session == Some(NewSession(sessionId, title, url, now, hidden)) && lastTitle == title
      ensures state == old(state).(currentSession := session, isTracking := true)
    {
      var s := TabSession(sessionId, OrElse(title, "Untitled"), url, now, !hidden, false);
      session := Some(s);
      lastTitle := title;
      state := state.(currentSession := Some(s), isTracking := true);
    }

    /** `completeSession(isIdle)` followed by `startSession()`. */
    method Restart(isIdle: bool, now: int, activityId: string, sessionId: string, title: string, url: string,
                   hidden: bool)
      requires Valid()
      modifies this`pending, this`state, this`session, this`reported, this`counts, this`lastTitle
      ensures Valid()
      ensures session == Some(NewSession(sessionId, title, url, now, hidden)) && lastTitle == title
      ensures pending == Pending(old(pending), old(Completion(isIdle, now, activityId)))
      ensures reported == old(reported) + Reports(old(Completion(isIdle, now, activityId)))
      ensures state == Counted(old(state), old(Completion(isIdle, now, activityId)), isIdle)
        .(currentSession := session, isTracking := true)
    {
      CompleteSession(isIdle, now, activityId);
      StartSession(now, sessionId, title, url, hidden);
    }

    /** `handleTitleChange`: when the title differs from the last one seen
        and a session is open, that session is completed and a new one
        opens; otherwise nothing changes. */
    method HandleTitleChange(title: string, now: int, activityId: string, sessionId: string, url: string,
                             hidden: bool)
      requires Valid()
      modifies this`pending, this`state, this`session, this`reported, this`counts, this`lastTitle
      ensures Valid()
      ensures if old(title != lastTitle && session.Some?) then
        && session == Some(NewSession(sessionId, title, url, now, hidden)) && lastTitle == title
        && pending == Pending(old(pending), old(Completion(false, now, activityId)))
        && reported == old(reported) + Reports(old(Completion(false, now, activityId)))
        && state == Counted(old(state), old(Completion(false, now, activityId)), false).(currentSession := session, isTracking := true)
      else
        && session == old(session) && lastTitle == old(lastTitle) && pending == old(pending)
        && reported == old(reported) && state == old(state)
    {
      if title != lastTitle && session.Some? {
        Restart(false, now, activityId, sessionId, title, url, hidden);
      }
    }

    /** `handleVisibilityChange`: nothing while tracking is off; a hidden
        page completes its open session; a page that becomes visible opens a
        new session and leaves idleness. */
    method HandleVisibilityChange(hidden: bool, now: int, activityId: string, sessionId: string, title: string,
                                  url: string)
      requires Valid()
      modifies this`pending, this`state, this`session, this`reported, this`counts, this`lastTitle,
        this`idleRef, this`idleStart
      ensures Valid()
      ensures if !settings.enabled || !globalEnabled then
        && session == old(session) && pending == old(pending) && reported == old(reported) && state == old(state)
        && idleRef == old(idleRef)
      else if hidden then
        && session == None && lastTitle == old(lastTitle) && idleRef == old(idleRef)
        && pending == Pending(old(pending), old(Completion(false, now, activityId)))
        && reported == old(reported) + Reports(old(Completion(false, now, activityId)))
        && state == Counted(old(state), old(Completion(false, now, activityId)), false)
      else
        && session == Some(NewSession(sessionId, title, url, now, hidden)) && lastTitle == title
        && pending == old(pending) && reported == old(reported) && !idleRef
        && state == old(state).(currentSession := session, isTracking := true, isIdle := false, idleStartTime := None)
    {
      if !settings.enabled || !globalEnabled {
        return;
      }
      if hidden {
        CompleteSession(false, now, activityId);
      } else {
        StartSession(now, sessionId, title, url, hidden);
        idleRef, idleStart := false, None;
        state := state.(isIdle := false, idleStartTime := None);
      }
    }

    /** `handleUserActivity`: nothing while tracking is off. Otherwise the
        time of activity is noted; an idle period with an open session ends,
        completing the idle session as idle and opening a new one; and the
        idle timer is set again. */
    method HandleUserActivity(now: int, activityId: string, sessionId: string, title: string, url: string,
                              hidden: bool)
      requires Valid()
      modifies this`pending, this`state, this`session, this`reported, this`counts, this`lastTitle,
        this`idleRef, this`idleStart, this`idleDeadline
      ensures Valid()
      ensures if !settings.enabled || !globalEnabled then
        && session == old(session) && pending == old(pending) && reported == old(reported) && state == old(state)
        && idleRef == old(idleRef) && idleDeadline == old(idleDeadline)
      else
        && idleDeadline == Some(now + settings.idleTimeout * 1000)
        && if old(idleRef && session.Some?) then
          && !idleRef
          && session == Some(NewSession(sessionId, title, url, now, hidden)) && lastTitle == title
          && pending == Pending(old(pending), old(Completion(true, now, activityId)))
          && reported == old(reported) + Reports(old(Completion(true, now, activityId)))
          && state == Counted(old(state).(lastActivityTime := now), old(Completion(true, now, activityId)), true)
            .(currentSession := session, isTracking := true, isIdle := false, idleStartTime := None)
        else
          && session == old(session) && lastTitle == old(lastTitle) && pending == old(pending)
          && reported == old(reported) && idleRef == old(idleRef) && state == old(state).(lastActivityTime := now)
    {
      if !settings.enabled || !globalEnabled {
        return;
      }
      state := state.(lastActivityTime := now);
      if idleRef && session.Some? {
        Restart(true, now, activityId, sessionId, title, url, hidden);
        idleRef, idleStart := false, None;
        state := state.(isIdle := false, idleStartTime := None);
      }
      idleDeadline := Some(now + settings.idleTimeout * 1000);
    }
  
    /** The session the idle timer opens: titled "Idle", inactive and idle. */
    static function IdleSession(id: string, url: string, now: int): TabSession {
      TabSession(id, "Idle", url, now, false, true)
    }

    /** The idle timer's callback, run at `now`. Before the deadline, or
        with no timer set, nothing happens. Once it fires the timer is
        spent; when idle time is tracked and a session is open, that session
        is completed as an active one and an idle session opens in its
        place. */
    method IdleTimeout(now: int, activityId: string, sessionId: string, url: string)
      requires Valid()
      modifies this`pending, this`state, this`session, this`reported, this`counts, this`idleRef,
        this`idleStart, this`idleDeadline
      ensures Valid()
      ensures if old(idleDeadline).None? || now < old(idleDeadline).value then
        idleDeadline == old(idleDeadline) && session == old(session) && idleRef == old(idleRef)
        && pending == old(pending) && reported == old(reported) && state == old(state)
      else if old(settings.trackIdleTime && session.Some?) then
        && idleDeadline == None && idleRef && idleStart == Some(now)
        && session == Some(IdleSession(sessionId, url, now))
        && pending == Pending(old(pending), old(Completion(false, now, activityId)))
        && reported == old(reported) + Reports(old(Completion(false, now, activityId)))
        && state == Counted(old(state), old(Completion(false, now, activityId)), false)
          .(isIdle := true, idleStartTime := Some(now), currentSession := session)
      else
        idleDeadline == None && session == old(session) && idleRef == old(idleRef)
        && pending == old(pending) && reported == old(reported) && state == old(state)
    {
      if idleDeadline.None? || now < idleDeadline.value {
        return;
      }
      idleDeadline := None;
      if settings.trackIdleTime && session.Some? {
        GoIdle(now, activityId, sessionId, url);
      }
    }

    /** The user went idle: the open session is completed as an active one,
        and an idle session opens in its place. */
    method GoIdle(now: int, activityId: string, sessionId: string, url: string)
      requires Valid() && session.Some?
      modifies this`pending, this`state, this`session, this`reported, this`counts, this`idleRef, this`idleStart
      ensures Valid()
      ensures idleRef && idleStart == Some(now) && session == Some(IdleSession(sessionId, url, now))
      ensures pending == Pending(old(pending), old(Completion(false, now, activityId)))
      ensures reported == old(reported) + Reports(old(Completion(false, now, activityId)))
      ensures state == Counted(old(state), old(Completion(false, now, activityId)), false)
        .(isIdle := true, idleStartTime := Some(now), currentSession := session)
    {
      CompleteSession(false, now, activityId);
      idleRef, idleStart := true, Some(now);
      var idle := TabSession(sessionId, "Idle", url, now, false, true);
      session := Some(idle);
      state := state.(isIdle := true, idleStartTime := Some(now), currentSession := Some(idle));
    }

    /** `forceCompleteSession`: an open session is completed and a new one
        opens; without one nothing happens. */
    method ForceCompleteSession(now: int, activityId: string, sessionId: string, title: string, url: string,
                                hidden: bool)
      requires Valid()
      modifies this`pending, this`state, this`session, this`reported, this`counts, this`lastTitle
      ensures Valid()
      ensures if old(session).Some? then
        && session == Some(NewSession(sessionId, title, url, now, hidden)) && lastTitle == title
        && pending == Pending(old(pending), old(Completion(false, now, activityId)))
        && reported == old(reported) + Reports(old(Completion(false, now, activityId)))
        && state == Counted(old(state), old(Completion(false, now, activityId)), false).(currentSession := session, isTracking := true)
      else
        && session == None && lastTitle == old(lastTitle) && pending == old(pending)
        && reported == old(reported) && state == old(state)
    {
      if session.Some? {
        Restart(false, now, activityId, sessionId, title, url, hidden);
      }
    }

    method ClearPendingActivities()
      modifies this`pending
      ensures pending == []
    {
      pending := [];
    }

    /** `updateSettings`: the given fields replace the current ones. */
    method UpdateSettings(u: SettingsUpdate)
      modifies this`settings
      ensures settings == Updated(old(settings), u)
    {
      settings := Updated(settings, u);
    }

    /** `getCurrentSessionDuration`: the whole seconds since the open session
        began, or 0 without one. */
    function CurrentSessionDuration(now: int): (d: int)
      reads this`session
      ensures session.None? ==> d == 0
      ensures session.Some? ==> d * 1000 <= now - session.value.startTime < d * 1000 + 1000
    {
      if session.None? then 0 else (now - session.value.startTime) / 1000
    }

    /** `isTracking`: the page tracks while it is enabled, globally too, and
        a session has been started. */
    function IsTracking(): bool
      reads this`settings, this`state
    {
      settings.enabled && globalEnabled && state.isTracking
    }

    /** What `beforeunload` saves: the pending list, with the open session's
        activity appended when it is long enough. The activity is idle only
        when the session is. */
    function RecoverySnapshot(now: int, activityId: string): (r: seq<Activity>)
      reads this`session, this`settings, this`pending
      ensures |pending| <= |r| <= |pending| + 1 && r[..|pending|] == pending
      ensures |r| == |pending| + 1 <==>
        session.Some? && (now - session.value.startTime) / 1000 >= settings.minimumActivityDuration
      ensures |r| == |pending| + 1 ==> r[|pending|].isIdle == session.value.isIdle && r[|pending|].endTime == now
    ensures |r| == |pending| + 1 ==>
      var a, s := r[|pending|], session.value;
      && a.id == activityId && a.applicationName == BrowserName(userAgent) && !a.isCoded
      && a.windowTitle == CleanTitle(s.title) + " - " + ExtractDomain(hostOf(s.url))
      && a.startTime == s.startTime && a.duration * 1000 <= now - s.startTime < a.duration * 1000 + 1000
    {
      if session.Some? && (now - session.value.startTime) / 1000 >= settings.minimumActivityDuration then
        pending + [ActivityOf(session.value, now, activityId, false)]
      else pending
    }

    /** The saved list is what completing the session would leave, except
        that it never merges: where completion would log the activity the
        two agree, and where it would merge the snapshot still appends. */
    lemma SnapshotVersusCompletion(now: int, activityId: string)
      ensures Completion(false, now, activityId).Logged? ==>
        RecoverySnapshot(now, activityId) == Pending(pending, Completion(false, now, activityId))
      ensures Completion(false, now, activityId).Merged? ==>
        |RecoverySnapshot(now, activityId)| == |Pending(pending, Completion(false, now, activityId))| + 1
      ensures Completion(false, now, activityId).Dropped? ==> RecoverySnapshot(now, activityId) == pending
    {
      if session.Some? {
        var a := ActivityOf(session.value, now, activityId, false);
        assert a.duration == (now - session.value.startTime) / 1000;
        if Completion(false, now, activityId).Merged? {
          CompletePending(settings, pending, session.value, a);
        }
      }
    }
  }

  /** The counters follow the caller's flag and not the session's: an idle
      session completed without the flag (the page was hidden, or the
      title changed, while idle) is logged as an idle activity, yet its
      seconds go to the active total. */
  lemma IdleSessionCountedActive(state: TrackerState, settings: TabSettings, pending: seq<Activity>, s: TabSession,
                                 now: int, id: string, browser: string, domain: string)
    requires s.isIdle
    requires Complete(settings, pending, s, SessionActivity(s, now, id, browser, domain, false)).Logged?
    ensures var o := Complete(settings, pending, s, SessionActivity(s, now, id, browser, domain, false));
      && o.logged.isIdle
      && Counted(state, o, false).totalIdleTime == state.totalIdleTime
      && Counted(state, o, false).totalActiveTime == state.totalActiveTime + o.logged.duration
  {
  }
}
