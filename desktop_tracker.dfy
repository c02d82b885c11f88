/** The desktop session tracker of electron/tracker.js: a state machine over
    tracking, pausing, idleness and the open activity, fed with window
    samples and system events, which closes activities, reports the ones
    long enough to keep and adds them up. The clock, the window sampler,
    the timers and the id generator are inputs: each step takes `now`, the
    sample and the fresh ids it needs. */
module DesktopTracker {
  import opened Text
  import opened DesktopRules
  import opened DesktopTitles
  import Productivity

  datatype DesktopActivity = DesktopActivity(
    id: string,
    applicationName: string,
    windowTitle: string,
    processPath: string,
    startTime: int,
    endTime: Option<int>,
    duration: int,
    isIdle: bool,
    categoryId: string,
    categoryAutoAssigned: bool,
    categoryConfidence: int)

  /** The callbacks the tracker calls, in the order it calls them. */
  datatype Event =
    | ActivityLogged(activity: DesktopActivity)
    | IdleStarted
    | IdleEnded(seconds: int)
    | StatusChanged(isTracking: bool, isPaused: bool)

  datatype Options = Options(idleThreshold: int, minActivityDuration: int, pollInterval: int, autoCategorize: bool)

  datatype TrackerStats = TrackerStats(
    totalTrackedTime: int,
    totalIdleTime: int,
    activitiesLogged: int,
    sessionsToday: int,
    productiveTime: int,
    distractingTime: int)

  datatype StatsReport = StatsReport(stats: TrackerStats, productivityScore: int)

  /** What the window sampler gives a poll: a failure, no active window, or
      the owner's name and path and the title, each possibly empty. */
  datatype Sample = Failed | NoWindow | Window(ownerName: string, ownerPath: string, title: string)

  /** The options as the constructor reads them: a missing or zero number
      takes its default, and categorising is on unless it is turned off. */
  function Configured(idleThreshold: Option<int>, minActivityDuration: Option<int>, pollInterval: Option<int>,
                      autoCategorize: Option<bool>): (o: Options)
    ensures o.idleThreshold != 0 && o.minActivityDuration != 0 && o.pollInterval != 0
    ensures idleThreshold.None? ==> o.idleThreshold == 300
    ensures minActivityDuration.None? ==> o.minActivityDuration == 10
    ensures pollInterval.None? ==> o.pollInterval == 1000
    ensures o.autoCategorize <==> autoCategorize != Some(false)
  {
    Options(OrDefault(idleThreshold, 300), OrDefault(minActivityDuration, 10), OrDefault(pollInterval, 1000),
            autoCategorize != Some(false))
  }

  const NO_STATS: TrackerStats := TrackerStats(0, 0, 0, 0, 0, 0)

  /** A fresh activity: open, of duration 0. */
  function Opened(id: string, appName: string, windowTitle: string, processPath: string, startTime: int, isIdle: bool,
                  c: Categorization): DesktopActivity {
    DesktopActivity(id, appName, windowTitle, processPath, startTime, None, 0, isIdle,
                    c.categoryId, c.autoAssigned, c.confidence)
  }

  /** The activity that stands for time away: "System", uncategorised, certain. */
  function SystemActivity(id: string, windowTitle: string, startTime: int): DesktopActivity {
    Opened(id, "System", windowTitle, "", startTime, true, Categorization(UNCATEGORIZED, true, 100))
  }

  // ---------------------------------------------------------------------
  // finalizeActivity

  /** An activity closed at `now`: the end is stamped, the duration is the
      whole seconds since the start, and a manual category overrides the
      automatic one. */
  function Finalized(a: DesktopActivity, now: int, overrides: map<string, string>): (f: DesktopActivity)
    ensures f.endTime == Some(now)
    ensures f.duration * 1000 <= now - a.startTime < f.duration * 1000 + 1000
    ensures a.id in overrides && overrides[a.id] != [] ==>
      f.categoryId == overrides[a.id] && !f.categoryAutoAssigned && f.categoryConfidence == 100
    ensures !(a.id in overrides && overrides[a.id] != []) ==>
      f.categoryId == a.categoryId && f.categoryAutoAssigned == a.categoryAutoAssigned
      && f.categoryConfidence == a.categoryConfidence
    ensures f.(endTime := a.endTime, duration := a.duration, categoryId := a.categoryId,
               categoryAutoAssigned := a.categoryAutoAssigned, categoryConfidence := a.categoryConfidence) == a
  {
    var closed := a.(endTime := Some(now), duration := (now - a.startTime) / 1000);
    if a.id in overrides && overrides[a.id] != [] then
      closed.(categoryId := overrides[a.id], categoryAutoAssigned := false, categoryConfidence := 100)
    else closed
  }

  /** A closed activity is reported only when it lasted long enough. */
  function Logs(f: DesktopActivity, minDuration: int): seq<Event> {
    if f.duration >= minDuration then [ActivityLogged(f)] else []
  }

  /** The statistics after closing `f`: a reported activity counts once, and
      its duration goes to the idle total or to the tracked total, and then
      to the productive or the distracting time when its category is known. */
  function Counted(stats: TrackerStats, f: DesktopActivity, categories: map<string, DesktopCategory>,
                   minDuration: int): (s: TrackerStats)
    ensures s.activitiesLogged == stats.activitiesLogged + |Logs(f, minDuration)|
    ensures s.sessionsToday == stats.sessionsToday
    ensures s.totalIdleTime + s.totalTrackedTime
      == stats.totalIdleTime + stats.totalTrackedTime + (if f.duration >= minDuration then f.duration else 0)
    ensures s.totalIdleTime == stats.totalIdleTime || s.totalTrackedTime == stats.totalTrackedTime
    ensures (s.productiveTime - stats.productiveTime) + (s.distractingTime - stats.distractingTime)
      == (if f.duration >= minDuration && !f.isIdle && f.categoryId in categories then f.duration else 0)
    ensures s.productiveTime == stats.productiveTime || s.distractingTime == stats.distractingTime
  {
    if f.duration < minDuration then stats
    else
      var s := stats.(activitiesLogged := stats.activitiesLogged + 1);
      if f.isIdle then s.(totalIdleTime := s.totalIdleTime + f.duration)
      else
        var s := s.(totalTrackedTime := s.totalTrackedTime + f.duration);
        if f.categoryId !in categories then s
        else if categories[f.categoryId].isProductivity then s.(productiveTime := s.productiveTime + f.duration)
        else s.(distractingTime := s.distractingTime + f.duration)
  }

  /** `stats1` and `events1` are the statistics and the reports after
      closing `a0` at `now` from `stats0` and `events0`; nothing changes
      when no activity was open. */
  ghost predicate Closed(a0: Option<DesktopActivity>, now: int, overrides: map<string, string>,
                         categories: map<string, DesktopCategory>, minDuration: int,
                         stats0: TrackerStats, events0: seq<Event>, stats1: TrackerStats, events1: seq<Event>)
  {
    stats1 == ClosedStats(a0, now, overrides, categories, minDuration, stats0)
    && events1 == ClosedEvents(a0, now, overrides, minDuration, events0)
  }

  function ClosedStats(a0: Option<DesktopActivity>, now: int, overrides: map<string, string>,
                       categories: map<string, DesktopCategory>, minDuration: int, stats0: TrackerStats): TrackerStats
  {
    match a0
    case None => stats0
    case Some(a) => Counted(stats0, Finalized(a, now, overrides), categories, minDuration)
  }

  function ClosedEvents(a0: Option<DesktopActivity>, now: int, overrides: map<string, string>, minDuration: int,
                        events0: seq<Event>): seq<Event>
  {
    match a0
    case None => events0
    case Some(a) => events0 + Logs(Finalized(a, now, overrides), minDuration)
  }

  /** A new activity starts when none is open, when the application
      changes, or when the title changes beyond counters and clocks. */
  predicate ShouldStartNewActivity(current: Option<DesktopActivity>, appName: string, windowTitle: string) {
    || current.None?
    || current.value.applicationName != appName
    || NormalizeTitle(current.value.windowTitle) != NormalizeTitle(windowTitle)
  }

  /** Observing a window from `a0`, `stats0`, `events0` gives `a1`, `stats1`,
      `events1`: either the open activity is closed and a new one with the
      categorisation `c` opens, or the open one continues with its duration
      brought up to date. */
  ghost predicate Observes(a0: Option<DesktopActivity>, stats0: TrackerStats, events0: seq<Event>, now: int,
                           appName: string, windowTitle: string, processPath: string, newId: string, c: Categorization,
                           overrides: map<string, string>, categories: map<string, DesktopCategory>, minDuration: int,
                           a1: Option<DesktopActivity>, stats1: TrackerStats, events1: seq<Event>)
  {
    if ShouldStartNewActivity(a0, appName, windowTitle) then
      && Closed(a0, now, overrides, categories, minDuration, stats0, events0, stats1, events1)
      && a1 == Some(Opened(newId, appName, windowTitle, processPath, now, false, c))
    else
      && stats1 == stats0 && events1 == events0
      && a1 == Some(a0.value.(duration := (now - a0.value.startTime) / 1000))
  }

  // ---------------------------------------------------------------------
  // What the reports add up to

  function LoggedCount(events: seq<Event>): (n: nat)
    ensures n <= |events|
  {
    if events == [] then 0
    else LoggedCount(events[..|events| - 1]) + (if events[|events| - 1].ActivityLogged? then 1 else 0)
  }

  /** The seconds of the reported activities, idle ones or the others. */
  function LoggedSeconds(events: seq<Event>, idle: bool): int {
    if events == [] then 0
    else
      var e := events[|events| - 1];
      LoggedSeconds(events[..|events| - 1], idle) + (if e.ActivityLogged? && e.activity.isIdle == idle then e.activity.duration else 0)
  }

  /** The counters agree with the reports: one per reported activity, and
      the idle and tracked totals are the seconds of the idle and the other
      reported activities. The tracker never counts sessions. */
  predicate Agrees(stats: TrackerStats, events: seq<Event>) {
    && stats.activitiesLogged == LoggedCount(events)
    && stats.totalIdleTime == LoggedSeconds(events, true)
    && stats.totalTrackedTime == LoggedSeconds(events, false)
    && stats.sessionsToday == 0
  }

  /** The productive and distracting times are non-negative parts of the
      tracked time. */
  predicate Balanced(stats: TrackerStats) {
    0 <= stats.productiveTime && 0 <= stats.distractingTime
    && stats.productiveTime + stats.distractingTime <= stats.totalTrackedTime
  }

  /** One more report adds its own share to the sums. */
  lemma LoggedAppend(events: seq<Event>, e: Event)
    ensures (events + [e])[..|events|] == events
    ensures LoggedCount(events + [e]) == LoggedCount(events) + (if e.ActivityLogged? then 1 else 0)
    ensures LoggedSeconds(events + [e], true)
      == LoggedSeconds(events, true) + (if e.ActivityLogged? && e.activity.isIdle then e.activity.duration else 0)
    ensures LoggedSeconds(events + [e], false)
      == LoggedSeconds(events, false) + (if e.ActivityLogged? && !e.activity.isIdle then e.activity.duration else 0)
  {
    assert (events + [e])[..|events|] == events;
  }

  /** A report that is not an activity leaves the sums alone. */
  lemma StatusAgrees(stats: TrackerStats, events: seq<Event>, e: Event)
    requires Agrees(stats, events) && !e.ActivityLogged?
    ensures Agrees(stats, events + [e])
    ensures (events + [e])[..|events|] == events
  {
    LoggedAppend(events, e);
  }

  lemma CountedTotals(stats: TrackerStats, f: DesktopActivity, categories: map<string, DesktopCategory>, minDuration: int)
    requires f.duration >= minDuration
    ensures var s := Counted(stats, f, categories, minDuration);
      && s.activitiesLogged == stats.activitiesLogged + 1 && s.sessionsToday == stats.sessionsToday
      && s.totalIdleTime == stats.totalIdleTime + (if f.isIdle then f.duration else 0)
      && s.totalTrackedTime == stats.totalTrackedTime + (if f.isIdle then 0 else f.duration)
  {
  }

  /** Closing an activity keeps the counters in step with the reports. */
  lemma CountedAgrees(stats: TrackerStats, events: seq<Event>, f: DesktopActivity,
                      categories: map<string, DesktopCategory>, minDuration: int)
    requires Agrees(stats, events)
    ensures Agrees(Counted(stats, f, categories, minDuration), events + Logs(f, minDuration))
  {
    if f.duration < minDuration {
      assert events + Logs(f, minDuration) == events;
    } else {
      LoggedAppend(events, ActivityLogged(f));
      assert Logs(f, minDuration) == [ActivityLogged(f)];
      CountedTotals(stats, f, categories, minDuration);
    }
  }

  /** With a minimum duration that is not negative, only non-negative
      durations are counted, so the productive share stays a share. */
  lemma CountedBalanced(stats: TrackerStats, f: DesktopActivity, categories: map<string, DesktopCategory>,
                        minDuration: int)
    requires Balanced(stats) && minDuration >= 0
    ensures Balanced(Counted(stats, f, categories, minDuration))
  {
  }

  // ---------------------------------------------------------------------
  // The tracker

  class ActivityTracker {
    var options: Options
    var isTracking: bool
    var isPaused: bool
    var isIdle: bool
    /** Whether the poll timer is set. */
    var polling: bool
    var lastActivityTime: int
    var current: Option<DesktopActivity>
    var stats: TrackerStats
    var categories: map<string, DesktopCategory>
    const rules: seq<DesktopRule>
    var customRules: seq<DesktopRule>
    /** Activity id to category id. */
    var manualOverrides: map<string, string>
    /** The callbacks made so far. */
    var events: seq<Event>
    const re: RegexEngine

    /** Pausing happens only while tracking, the timer runs exactly while
        tracking and not paused, and the statistics are the sums of what
        was reported. */
    ghost predicate Valid()
      reads this
    {
      && (isPaused ==> isTracking)
      && (polling <==> isTracking && !isPaused)
      && Agrees(stats, events)
    }

    /** The productive and distracting times are part of the tracked time. */
    ghost predicate Sane()
      reads this`stats
    {
      Balanced(stats)
    }

    constructor (idleThreshold: Option<int>, minActivityDuration: Option<int>, pollInterval: Option<int>,
                 autoCategorize: Option<bool>, re: RegexEngine, now: int)
      ensures Valid() && Sane()
      ensures options == Configured(idleThreshold, minActivityDuration, pollInterval, autoCategorize)
      ensures !isTracking && !isPaused && !isIdle && lastActivityTime == now && current == None
      ensures stats == NO_STATS && events == []
      ensures categories == DEFAULT_CATEGORIES && rules == DEFAULT_RULES && customRules == [] && manualOverrides == map[]
      ensures this.re == re
    {
      options := Configured(idleThreshold, minActivityDuration, pollInterval, autoCategorize);
      isTracking, isPaused, isIdle, polling := false, false, false, false;
      lastActivityTime := now;
      current := None;
      stats := NO_STATS;
      categories := DEFAULT_CATEGORIES;
      rules := DEFAULT_RULES;
      customRules := [];
      manualOverrides := map[];
      events := [];
      this.re := re;
    }

    // -------------------------------------------------------------------
    // Categorisation

    /** Custom rules in order, the first match deciding with confidence 90;
        then the scan over the default rules for the greatest priority. */
    method CategorizeActivity(appName: string, windowTitle: string) returns (c: Categorization)
      ensures c == Categorize(customRules, rules, appName, windowTitle, re)
    {
      var appLower, titleLower := Lower(appName), Lower(windowTitle);
      var custom := FirstCustomMatch(appLower, titleLower);
      if custom.Some? {
        return Categorization(customRules[custom.value].categoryId, true, 90);
      }
      var best, bestPriority := BestDefaultMatch(appLower, titleLower);
      if best.Some? {
        c := Categorization(rules[best.value].categoryId, true, if 50 + bestPriority < 90 then 50 + bestPriority else 90);
      } else {
        c := Categorization(UNCATEGORIZED, true, 50);
      }
    }

    /** The first loop: the custom rules in order, stopping at a match. */
    method FirstCustomMatch(appLower: string, titleLower: string) returns (m: Option<nat>)
      ensures m == FirstMatch(customRules, appLower, titleLower, re)
    {
      for i := 0 to |customRules|
        invariant forall j :: 0 <= j < i ==> !MatchRule(customRules[j], appLower, titleLower, re)
      {
        if MatchRule(customRules[i], appLower, titleLower, re) {
          FirstMatchAt(customRules, appLower, titleLower, re, i);
          return Some(i);
        }
      }
      FirstMatchAt(customRules, appLower, titleLower, re, |customRules|);
      return None;
    }

    /** The second loop: a matching rule replaces the best so far only when
        its priority is strictly greater, starting from -1. */
    method BestDefaultMatch(appLower: string, titleLower: string) returns (best: Option<nat>, bestPriority: int)
      ensures best == Best(rules, appLower, titleLower, re)
      ensures best.Some? ==> best.value < |rules| && bestPriority == Priority(rules[best.value])
    {
      best, bestPriority := None, -1;
      for i := 0 to |rules|
        invariant best == Best(rules[..i], appLower, titleLower, re)
        invariant best.Some? ==> best.value < i && bestPriority == Priority(rules[best.value])
        invariant best.None? ==> bestPriority == -1
      {
        var priority := Priority(rules[i]);
        assert rules[..i + 1][..i] == rules[..i];
        if MatchRule(rules[i], appLower, titleLower, re) && priority > bestPriority {
          best, bestPriority := Some(i), priority;
        }
      }
      assert rules[..|rules|] == rules;
    }

    function GetActivityCategory(activityId: string): (r: Option<string>)
      reads this
      ensures r.Some? <==> activityId in manualOverrides
      ensures r.Some? ==> r.value == manualOverrides[activityId]
    {
      if activityId in manualOverrides then Some(manualOverrides[activityId]) else None
    }

    method SetActivityCategory(activityId: string, categoryId: string)
      modifies this`manualOverrides
      ensures manualOverrides == old(manualOverrides)[activityId := categoryId]
    {
      manualOverrides := manualOverrides[activityId := categoryId];
    }

    /** The rule is appended as a custom rule, with an id made from the
        clock when it has none. */
    method AddCustomRule(rule: DesktopRule, now: nat)
      modifies this`customRules
      ensures customRules == old(customRules) + [rule.(id := Some(CustomRuleId(rule, now)), isCustom := true)]
    {
      customRules := customRules + [rule.(id := Some(CustomRuleId(rule, now)), isCustom := true)];
    }

    method RemoveCustomRule(ruleId: string)
      modifies this`customRules
      ensures customRules == WithoutRule(old(customRules), ruleId)
    {
      customRules := WithoutRule(customRules, ruleId);
    }

    method SetCustomRules(rs: seq<DesktopRule>)
      modifies this`customRules
      ensures customRules == AsCustom(rs)
    {
      customRules := AsCustom(rs);
    }

    method AddCategory(category: DesktopCategory)
      modifies this`categories
      ensures categories == old(categories)[category.id := category]
    {
      categories := categories[category.id := category];
    }

    // -------------------------------------------------------------------
    // Closing the open activity

    method FinalizeActivity(now: int)
      requires Valid()
      modifies this`current, this`stats, this`events
      ensures Valid()
      ensures current == None
      ensures Closed(old(current), now, manualOverrides, categories, options.minActivityDuration, old(stats), old(events), stats, events)
      ensures old(Sane()) && options.minActivityDuration >= 0 ==> Sane()
    {
      if current.None? {
        return;
      }
      var f := Finalized(current.value, now, manualOverrides);
      CountedAgrees(stats, events, f, categories, options.minActivityDuration);
      if options.minActivityDuration >= 0 && Balanced(stats) {
        CountedBalanced(stats, f, categories, options.minActivityDuration);
      }
      events := events + Logs(f, options.minActivityDuration);
      stats := Counted(stats, f, categories, options.minActivityDuration);
      current := None;
    }

    /** The open activity, if any, is closed and then the status report `e`
        is made. */
    method FinalizeAndReport(now: int, e: Event)
      requires Valid() && !e.ActivityLogged?
      modifies this`current, this`stats, this`events
      ensures Valid()
      ensures current == None
      ensures events != [] && events[|events| - 1] == e
      ensures Closed(old(current), now, manualOverrides, categories, options.minActivityDuration, old(stats), old(events), stats, events[..|events| - 1])
      ensures old(Sane()) && options.minActivityDuration >= 0 ==> Sane()
    {
      FinalizeActivity(now);
      StatusAgrees(stats, events, e);
      events := events + [e];
    }

    // -------------------------------------------------------------------
    // Sessions

    /** Going idle is noticed once, on the edge: when the time since the last
        activity reaches the threshold, the open activity is closed and an
        idle one opens from the last activity. */
    method CheckIdle(now: int, idleId: string)
      requires Valid()
      modifies this`isIdle, this`current, this`stats, this`events
      ensures Valid()
      ensures if !old(isIdle) && now - lastActivityTime >= options.idleThreshold * 1000 then
        isIdle && current == Some(SystemActivity(idleId, "Idle", lastActivityTime))
        && Closed(old(current), now, manualOverrides, categories, options.minActivityDuration, old(stats), old(events) + [IdleStarted], stats, events)
      else
        isIdle == old(isIdle) && current == old(current) && stats == old(stats) && events == old(events)
      ensures old(Sane()) && options.minActivityDuration >= 0 ==> Sane()
    {
      var idleTime := now - lastActivityTime;
      if !isIdle && idleTime >= options.idleThreshold * 1000 {
        isIdle := true;
        StatusAgrees(stats, events, IdleStarted);
        events := events + [IdleStarted];
        FinalizeActivity(now);
        current := Some(SystemActivity(idleId, "Idle", lastActivityTime));
      }
    }

    /** The categorisation a new activity gets: by the rules when
        categorising is on, and uncategorised otherwise. */
    ghost function AutoCategory(appName: string, windowTitle: string): Categorization
      reads this`options, this`customRules
    {
      if options.autoCategorize then Categorize(customRules, rules, appName, windowTitle, re)
      else Categorization(UNCATEGORIZED, true, 50)
    }

    /** The open activity is closed and one for the window opens. */
    method StartActivity(now: int, appName: string, windowTitle: string, processPath: string, newId: string)
      requires Valid()
      modifies this`current, this`stats, this`events
      ensures Valid()
      ensures Closed(old(current), now, manualOverrides, categories, options.minActivityDuration, old(stats), old(events), stats, events)
      ensures current == Some(Opened(newId, appName, windowTitle, processPath, now, false, AutoCategory(appName, windowTitle)))
      ensures old(Sane()) && options.minActivityDuration >= 0 ==> Sane()
    {
      FinalizeActivity(now);
      var c: Categorization;
      if options.autoCategorize {
        c := CategorizeActivity(appName, windowTitle);
      } else {
        c := Categorization(UNCATEGORIZED, true, 50);
      }
      current := Some(Opened(newId, appName, windowTitle, processPath, now, false, c));
    }

    /** The window now in front either continues the open activity (its
        duration is brought up to date) or closes it and opens a new one.
        Either way the open activity is then the window's. */
    method Observe(now: int, appName: string, windowTitle: string, processPath: string, newId: string)
      requires Valid()
      modifies this`current, this`stats, this`events, this`lastActivityTime
      ensures Valid()
      ensures lastActivityTime == now
      ensures if old(ShouldStartNewActivity(current, appName, windowTitle)) then
        && Closed(old(current), now, manualOverrides, categories, options.minActivityDuration, old(stats), old(events), stats, events)
        && current == Some(Opened(newId, appName, windowTitle, processPath, now, false, AutoCategory(appName, windowTitle)))
      else
        && stats == old(stats) && events == old(events)
        && current == Some(old(current).value.(duration := (now - old(current).value.startTime) / 1000))
      ensures !ShouldStartNewActivity(current, appName, windowTitle)
      ensures current.value.duration == (now - current.value.startTime) / 1000
      ensures old(Sane()) && options.minActivityDuration >= 0 ==> Sane()
    {
      if ShouldStartNewActivity(current, appName, windowTitle) {
        StartActivity(now, appName, windowTitle, processPath, newId);
      }
      var a := current.value;
      current := Some(a.(duration := (now - a.startTime) / 1000));
      lastActivityTime := now;
    }

    /** One sample of the active window. Nothing happens unless tracking and
        not paused, or when sampling failed; without a window the open
        activity is closed; otherwise idleness is checked (which may close
        the open activity and open the idle one, giving `mid`, `midStats`
        and `midEvents`) and then the window is observed, its name defaulting to "Unknown"
        and its title to "Untitled". */
    method Poll(now: int, sample: Sample, idleId: string, newId: string)
      requires Valid()
      modifies this`isIdle, this`current, this`stats, this`events, this`lastActivityTime
      ensures Valid()
      ensures if !old(isTracking) || old(isPaused) || sample.Failed? then
        isIdle == old(isIdle) && current == old(current) && stats == old(stats) && events == old(events)
        && lastActivityTime == old(lastActivityTime)
      else if sample.NoWindow? then
        current == None && Closed(old(current), now, manualOverrides, categories, options.minActivityDuration, old(stats), old(events), stats, events) && isIdle == old(isIdle)
        && lastActivityTime == old(lastActivityTime)
      else
        var app, title := OrElse(sample.ownerName, "Unknown"), OrElse(sample.title, "Untitled");
        var idle := !old(isIdle) && now - old(lastActivityTime) >= options.idleThreshold * 1000;
        var mid := if idle then Some(SystemActivity(idleId, "Idle", old(lastActivityTime))) else old(current);
        var midStats := if idle then ClosedStats(old(current), now, manualOverrides, categories, options.minActivityDuration, old(stats))
                        else old(stats);
        var midEvents := if idle then ClosedEvents(old(current), now, manualOverrides, options.minActivityDuration, old(events) + [IdleStarted])
                         else old(events);
        && lastActivityTime == now
        && isIdle == (old(isIdle) || idle)
        && Observes(mid, midStats, midEvents, now, app, title, sample.ownerPath, newId, AutoCategory(app, title),
                    manualOverrides, categories, options.minActivityDuration, current, stats, events)
        && !ShouldStartNewActivity(current, app, title)
        && current.value.duration == (now - current.value.startTime) / 1000
      ensures old(Sane()) && options.minActivityDuration >= 0 ==> Sane()
    {
      if !isTracking || isPaused {
        return;
      }
      match sample
      case Failed =>
      case NoWindow =>
        FinalizeActivity(now);
      case Window(ownerName, ownerPath, title) =>
        CheckIdle(now, idleId);
        ghost var mid, midStats, midEvents := current, stats, events;
        var app, t := OrElse(ownerName, "Unknown"), OrElse(title, "Untitled");
        Observe(now, app, t, ownerPath, newId);
        assert Observes(mid, midStats, midEvents, now, app, t, ownerPath, newId, AutoCategory(app, t),
                        manualOverrides, categories, options.minActivityDuration, current, stats, events);
    }

    /** User input: leaving idleness closes the idle activity and reports
        how long the user was away, in whole seconds. */
    method HandleUserActivity(now: int)
      requires Valid()
      modifies this`isIdle, this`current, this`stats, this`events, this`lastActivityTime
      ensures Valid()
      ensures !isIdle && lastActivityTime == now
      ensures if !old(isIdle) then
        current == old(current) && stats == old(stats) && events == old(events)
      else if old(current).Some? && old(current).value.isIdle then
        current == None && events != [] && events[|events| - 1] == IdleEnded((now - old(lastActivityTime)) / 1000)
        && Closed(old(current), now, manualOverrides, categories, options.minActivityDuration, old(stats), old(events), stats, events[..|events| - 1])
      else
        current == old(current) && stats == old(stats)
        && events == old(events) + [IdleEnded((now - old(lastActivityTime)) / 1000)]
      ensures old(Sane()) && options.minActivityDuration >= 0 ==> Sane()
    {
      if isIdle {
        var idleDuration := now - lastActivityTime;
        isIdle := false;
        if current.Some? && current.value.isIdle {
          FinalizeAndReport(now, IdleEnded(idleDuration / 1000));
        } else {
          StatusAgrees(stats, events, IdleEnded(idleDuration / 1000));
          events := events + [IdleEnded(idleDuration / 1000)];
        }
      }
      lastActivityTime := now;
    }

    // -------------------------------------------------------------------
    // Lifecycle

    method Start(now: int)
      requires Valid()
      modifies this`isTracking, this`isPaused, this`polling, this`lastActivityTime, this`events
      ensures Valid()
      ensures if old(isTracking) then
        isPaused == old(isPaused) && polling == old(polling) && lastActivityTime == old(lastActivityTime)
        && events == old(events)
      else
        !isPaused && polling && lastActivityTime == now && events == old(events) + [StatusChanged(true, false)]
      ensures isTracking
    {
      if isTracking {
        return;
      }
      isTracking := true;
      isPaused := false;
      lastActivityTime := now;
      polling := true;
      StatusAgrees(stats, events, StatusChanged(true, false));
      events := events + [StatusChanged(true, false)];
    }

    method Pause(now: int)
      requires Valid()
      modifies this`isPaused, this`polling, this`current, this`stats, this`events
      ensures Valid()
      ensures if old(isTracking) && !old(isPaused) then
        isPaused && !polling && current == None
        && events != [] && events[|events| - 1] == StatusChanged(true, true)
        && Closed(old(current), now, manualOverrides, categories, options.minActivityDuration, old(stats), old(events), stats, events[..|events| - 1])
      else
        isPaused == old(isPaused) && polling == old(polling) && current == old(current)
        && stats == old(stats) && events == old(events)
      ensures old(Sane()) && options.minActivityDuration >= 0 ==> Sane()
    {
      if !isTracking || isPaused {
        return;
      }
      isPaused := true;
      polling := false;
      FinalizeAndReport(now, StatusChanged(true, true));
    }

    method Resume(now: int)
      requires Valid()
      modifies this`isPaused, this`polling, this`lastActivityTime, this`events
      ensures Valid()
      ensures if old(isTracking) && old(isPaused) then
        !isPaused && polling && lastActivityTime == now && events == old(events) + [StatusChanged(true, false)]
      else
        isPaused == old(isPaused) && polling == old(polling) && lastActivityTime == old(lastActivityTime)
        && events == old(events)
    {
      if !isTracking || !isPaused {
        return;
      }
      isPaused := false;
      lastActivityTime := now;
      polling := true;
      StatusAgrees(stats, events, StatusChanged(true, false));
      events := events + [StatusChanged(true, false)];
    }

    method Stop(now: int)
      requires Valid()
      modifies this`isTracking, this`isPaused, this`polling, this`current, this`stats, this`events
      ensures Valid()
      ensures !isTracking && !isPaused && !polling
      ensures if old(isTracking) then
        current == None
        && events != [] && events[|events| - 1] == StatusChanged(false, false)
        && Closed(old(current), now, manualOverrides, categories, options.minActivityDuration, old(stats), old(events), stats, events[..|events| - 1])
      else
        current == old(current) && stats == old(stats) && events == old(events)
      ensures old(Sane()) && options.minActivityDuration >= 0 ==> Sane()
    {
      if !isTracking {
        return;
      }
      isTracking := false;
      isPaused := false;
      polling := false;
      FinalizeAndReport(now, StatusChanged(false, false));
    }

    // -------------------------------------------------------------------
    // System events

    /** Suspending closes the open activity, whether or not tracking is on,
        then pauses: a running tracker stops polling and reports the pause
        after the closed activity. */
    method HandleSuspend(now: int)
      requires Valid()
      modifies this`isPaused, this`polling, this`current, this`stats, this`events
      ensures Valid()
      ensures current == None
      ensures old(isTracking) ==> isPaused && !polling
      ensures if old(isTracking) && !old(isPaused) then
        isPaused && !polling && events != [] && events[|events| - 1] == StatusChanged(true, true)
        && Closed(old(current), now, manualOverrides, categories, options.minActivityDuration, old(stats), old(events), stats, events[..|events| - 1])
      else
        isPaused == old(isPaused) && polling == old(polling)
        && Closed(old(current), now, manualOverrides, categories, options.minActivityDuration, old(stats), old(events), stats, events)
      ensures old(Sane()) && options.minActivityDuration >= 0 ==> Sane()
    {
      FinalizeActivity(now);
      Pause(now);
    }

    /** Waking up resumes a paused tracker and nothing else. */
    method HandleResume(now: int)
      requires Valid()
      modifies this`isPaused, this`polling, this`lastActivityTime, this`events
      ensures Valid()
      ensures old(isTracking) ==> !isPaused && polling
      ensures if old(isTracking) && old(isPaused) then
        !isPaused && polling && lastActivityTime == now && events == old(events) + [StatusChanged(true, false)]
      else
        isPaused == old(isPaused) && polling == old(polling) && lastActivityTime == old(lastActivityTime)
        && events == old(events)
    {
      Resume(now);
    }

    /** Locking closes the open activity and opens an idle "Screen Locked"
        one, whether or not tracking is on. */
    method HandleLock(now: int, lockId: string)
      requires Valid()
      modifies this`current, this`stats, this`events
      ensures Valid()
      ensures Closed(old(current), now, manualOverrides, categories, options.minActivityDuration, old(stats), old(events), stats, events)
      ensures current == Some(SystemActivity(lockId, "Screen Locked", now))
      ensures old(Sane()) && options.minActivityDuration >= 0 ==> Sane()
    {
      FinalizeActivity(now);
      current := Some(SystemActivity(lockId, "Screen Locked", now));
    }

    /** Unlocking closes the open activity and counts as user input: when
        the tracker was idle, the end of idleness is reported after the
        closed activity, with the whole seconds since the last activity. */
    method HandleUnlock(now: int)
      requires Valid()
      modifies this`isIdle, this`current, this`stats, this`events, this`lastActivityTime
      ensures Valid()
      ensures current == None && !isIdle && lastActivityTime == now
      ensures if old(isIdle) then
        events != [] && events[|events| - 1] == IdleEnded((now - old(lastActivityTime)) / 1000)
        && Closed(old(current), now, manualOverrides, categories, options.minActivityDuration, old(stats), old(events), stats, events[..|events| - 1])
      else
        Closed(old(current), now, manualOverrides, categories, options.minActivityDuration, old(stats), old(events), stats, events)
      ensures old(Sane()) && options.minActivityDuration >= 0 ==> Sane()
    {
      FinalizeActivity(now);
      HandleUserActivity(now);
    }

    // -------------------------------------------------------------------
    // Read-outs and settings

    /** The statistics with the productive share of the tracked time. */
    function GetStats(): (r: StatsReport)
      reads this
      ensures r.stats == stats
      ensures stats.totalTrackedTime <= 0 ==> r.productivityScore == 0
      ensures Sane() ==> 0 <= r.productivityScore <= 100
    {
      StatsReport(stats, Productivity.Percentage(stats.productiveTime, stats.totalTrackedTime))
    }

    /** Each setting given replaces the current one, zero included; changing
        the poll interval restarts a running timer, which stays running. */
    method UpdateSettings(idleThreshold: Option<int>, minActivityDuration: Option<int>, pollInterval: Option<int>,
                          autoCategorize: Option<bool>)
      requires Valid()
      modifies this`options
      ensures Valid()
      ensures options == Options(
        if idleThreshold.Some? then idleThreshold.value else old(options).idleThreshold,
        if minActivityDuration.Some? then minActivityDuration.value else old(options).minActivityDuration,
        if pollInterval.Some? then pollInterval.value else old(options).pollInterval,
        if autoCategorize.Some? then autoCategorize.value else old(options).autoCategorize)
    {
      if idleThreshold.Some? {
        options := options.(idleThreshold := idleThreshold.value);
      }
      if minActivityDuration.Some? {
        options := options.(minActivityDuration := minActivityDuration.value);
      }
      if pollInterval.Some? {
        options := options.(pollInterval := pollInterval.value);
      }
      if autoCategorize.Some? {
        options := options.(autoCategorize := autoCategorize.value);
      }
    }
  }

  // ---------------------------------------------------------------------
  // Custom rules

  /** `rule.id || 'custom-' + Date.now()`. */
  function CustomRuleId(rule: DesktopRule, now: nat): (id: string)
    ensures rule.id.Some? && rule.id.value != [] ==> id == rule.id.value
    ensures !(rule.id.Some? && rule.id.value != []) ==> id == "custom-" + Decimal(now)
  {
    if rule.id.Some? && rule.id.value != [] then rule.id.value
    else "custom-" + Decimal(now)
  }

  /** The rules whose id is not `ruleId`, in their order. */
  function WithoutRule(rules: seq<DesktopRule>, ruleId: string): (r: seq<DesktopRule>)
    ensures forall x :: x in r <==> x in rules && x.id != Some(ruleId)
    ensures |r| <= |rules|
  {
    if rules == [] then []
    else
      var rest := WithoutRule(rules[..|rules| - 1], ruleId);
      var x := rules[|rules| - 1];
      assert forall y :: y in rules <==> y in rules[..|rules| - 1] || y == x;
      if x.id == Some(ruleId) then rest else rest + [x]
  }

  /** The removal works rule by rule and keeps the order: it distributes
      over concatenation, and keeps a single rule exactly when its id is
      not `ruleId`. */
  lemma {:induction false} WithoutRuleSplits(a: seq<DesktopRule>, b: seq<DesktopRule>, ruleId: string)
    ensures WithoutRule(a + b, ruleId) == WithoutRule(a, ruleId) + WithoutRule(b, ruleId)
    ensures forall x :: WithoutRule([x], ruleId) == (if x.id == Some(ruleId) then [] else [x])
  {
    if b == [] {
      assert a + b == a;
    } else {
      var init, last := b[..|b| - 1], b[|b| - 1];
      var keep := if last.id == Some(ruleId) then [] else [last];
      var c := a + b;
      assert c == (a + init) + [last] && b == init + [last];
      WithoutRuleSplits(a, init, ruleId);
      WithoutRuleSnoc(a + init, last, ruleId);
      WithoutRuleSnoc(init, last, ruleId);
      calc {
        WithoutRule(c, ruleId);
        WithoutRule(a + init, ruleId) + keep;
        WithoutRule(a, ruleId) + WithoutRule(init, ruleId) + keep;
        { RulesAssoc(WithoutRule(a, ruleId), WithoutRule(init, ruleId), keep); }
        WithoutRule(a, ruleId) + (WithoutRule(init, ruleId) + keep);
      }
    }
    forall x ensures WithoutRule([x], ruleId) == (if x.id == Some(ruleId) then [] else [x]) {
      assert [x][..0] == [];
    }
  }

  lemma WithoutRuleSnoc(s: seq<DesktopRule>, x: DesktopRule, ruleId: string)
    ensures WithoutRule(s + [x], ruleId) == WithoutRule(s, ruleId) + (if x.id == Some(ruleId) then [] else [x])
  {
    assert (s + [x])[..|s|] == s;
  }

  lemma RulesAssoc(x: seq<DesktopRule>, y: seq<DesktopRule>, z: seq<DesktopRule>)
    ensures x + y + z == x + (y + z)
  {
  }

  lemma WithoutRuleIdempotent(rules: seq<DesktopRule>, ruleId: string)
    ensures WithoutRule(WithoutRule(rules, ruleId), ruleId) == WithoutRule(rules, ruleId)
  {
    WithoutAbsentRule(WithoutRule(rules, ruleId), ruleId);
  }

  /** Removing an id no rule has changes nothing. */
  lemma {:induction false} WithoutAbsentRule(rules: seq<DesktopRule>, ruleId: string)
    requires forall x :: x in rules ==> x.id != Some(ruleId)
    ensures WithoutRule(rules, ruleId) == rules
  {
    if rules != [] {
      WithoutAbsentRule(rules[..|rules| - 1], ruleId);
      assert rules[|rules| - 1] in rules;
      assert rules[..|rules| - 1] + [rules[|rules| - 1]] == rules;
    }
  }

  function AsCustom(rs: seq<DesktopRule>): (r: seq<DesktopRule>)
    ensures |r| == |rs|
    ensures forall i :: 0 <= i < |rs| ==> r[i].isCustom && r[i].(isCustom := rs[i].isCustom) == rs[i]
  {
    seq(|rs|, i requires 0 <= i < |rs| => rs[i].(isCustom := true))
  }

  // ---------------------------------------------------------------------
  // Sessions

  /** A window whose title only changed its counter continues the open
      activity: "Inbox (3)" then "Inbox (4)" is one session. */
  lemma CounterTickContinues(a: DesktopActivity, p: string, d1: string, d2: string, q: string)
    requires a.windowTitle == p + "(" + d1 + ")" + q
    requires NoOpenParen(p) && d1 != [] && AllDigits(d1) && d2 != [] && AllDigits(d2)
    ensures !ShouldStartNewActivity(Some(a), a.applicationName, p + "(" + d2 + ")" + q)
  {
    TitleCountsIgnored(p, d1, d2, q);
    SameWindowContinues(a, p + "(" + d2 + ")" + q);
  }

  /** Likewise for a clock in the title: "Standup 9:30" then "Standup 9:31". */
  lemma ClockTickContinues(a: DesktopActivity, p: string, c1: string, c2: string, q: string)
    requires a.windowTitle == p + c1 + q
    requires NoOpenParen(p) && NoDigit(p) && NoOpenParen(q) && (q == [] || q[0] != ':')
    requires ClockShaped(c1) && ClockShaped(c2)
    ensures !ShouldStartNewActivity(Some(a), a.applicationName, p + c2 + q)
  {
    TitleClocksIgnored(p, c1, c2, q);
    SameWindowContinues(a, p + c2 + q);
  }

  /** The same application with a title that normalises alike continues. */
  lemma SameWindowContinues(a: DesktopActivity, windowTitle: string)
    requires NormalizeTitle(a.windowTitle) == NormalizeTitle(windowTitle)
    ensures !ShouldStartNewActivity(Some(a), a.applicationName, windowTitle)
  {
  }

  /** A different application always starts a new activity, and so does a
      sample when nothing is open. */
  lemma OtherAppStarts(current: Option<DesktopActivity>, appName: string, windowTitle: string)
    requires current.Some? ==> current.value.applicationName != appName
    ensures ShouldStartNewActivity(current, appName, windowTitle)
  {
  }
}
