/** The rule-based categorisation engine of src/utils/categorization.ts:
    pattern and rule matching, the choice of the best rule, and the
    `CategorizationEngine` object with its category and rule lists and its
    store of categorised activities. */
module Categorization {
  import opened Text
  import opened Lists
  import opened StableSort
  import opened Categories
  import opened Activities
  import Productivity
  import TimeUtils

  /** A pattern or rule test: whether it matched, and how sure it is (0-100). */
  datatype MatchResult = MatchResult(matched: bool, confidence: real)

  const NO_MATCH: MatchResult := MatchResult(false, 0.0)

  function MinReal(a: real, b: real): (r: real)
    ensures r <= a && r <= b && (r == a || r == b)
  {
    if a <= b then a else b
  }

  // ---------------------------------------------------------------------
  // Matching

  /** One pattern against one text, both already lower-cased. `contains`
      divides by the length of the text, so it needs a text or a pattern
      that is not empty. */
  function MatchPattern(text: string, pattern: string, mt: MatchType, re: RegexEngine): (r: MatchResult)
    requires mt == Contains ==> text != [] || pattern != []
    ensures !r.matched ==> r.confidence == 0.0
    ensures r.matched ==> 60.0 <= r.confidence <= 100.0
    ensures mt == Exact ==> r.matched == (text == pattern) && (r.matched ==> r.confidence == 100.0)
    ensures mt == Contains ==> r.matched == Includes(text, pattern)
    ensures mt == Contains && r.matched ==>
      text != [] && r.confidence == 60.0 + (|pattern| as real / |text| as real) * 40.0
    ensures mt == StartsWith ==> r.matched == HasPrefix(text, pattern) && (r.matched ==> r.confidence == 90.0)
    ensures mt == EndsWith ==> r.matched == HasSuffix(text, pattern) && (r.matched ==> r.confidence == 90.0)
    ensures mt == Regex ==> r.matched == (re(pattern, text) == Decided(true)) && (r.matched ==> r.confidence == 85.0)
  {
    match mt
    case Exact => if text == pattern then MatchResult(true, 100.0) else NO_MATCH
    case Contains =>
      if Includes(text, pattern) then
        IncludesLength(text, pattern);
        ShareAtMostOne(|pattern|, |text|);
        MatchResult(true, MinReal(100.0, 60.0 + (|pattern| as real / |text| as real) * 40.0))
      else NO_MATCH
    case StartsWith => if HasPrefix(text, pattern) then MatchResult(true, 90.0) else NO_MATCH
    case EndsWith => if HasSuffix(text, pattern) then MatchResult(true, 90.0) else NO_MATCH
    case Regex => if RegexTest(re, pattern, text) then MatchResult(true, 85.0) else NO_MATCH
  }

  /** A part of a positive whole is a share between 0 and 1. */
  lemma ShareAtMostOne(part: nat, whole: nat)
    requires 0 < whole && part <= whole
    ensures 0.0 <= part as real / whole as real <= 1.0
  {
    var q := part as real / whole as real;
    assert q * whole as real == part as real;
  }

  /** A `contains` match is certain (100) exactly when the pattern is the
      whole text, and scores less otherwise. */
  lemma ContainsConfidence(text: string, pattern: string, re: RegexEngine)
    requires text != [] || pattern != []
    requires MatchPattern(text, pattern, Contains, re).matched
    ensures MatchPattern(text, pattern, Contains, re).confidence == 100.0 <==> text == pattern
    ensures text != pattern ==> MatchPattern(text, pattern, Contains, re).confidence < 100.0
  {
    IncludesLength(text, pattern);
    if |pattern| == |text| {
      var i :| 0 <= i <= |text| - |pattern| && OccursAt(text, pattern, i);
      assert text[0..|pattern|] == text;
    }
    if |pattern| < |text| {
      assert (|pattern| as real / |text| as real) < 1.0;
    }
  }

  /** A sub-pattern of a `combined` rule: an absent one counts as a certain match. */
  function Part(text: string, pattern: string, mt: MatchType, re: RegexEngine): (r: MatchResult)
    ensures pattern == [] ==> r == MatchResult(true, 100.0)
    ensures pattern != [] ==> r == MatchPattern(Lower(text), Lower(pattern), mt, re)
  {
    if pattern == [] then MatchResult(true, 100.0) else MatchPattern(Lower(text), Lower(pattern), mt, re)
  }

  /** The priority bonus: a tenth of the priority, capped at 100. */
  function Boosted(confidence: real, priority: int): (r: real)
    ensures r <= 100.0
    ensures confidence + priority as real / 10.0 <= 100.0 ==> r == confidence + priority as real / 10.0
    ensures confidence + priority as real / 10.0 > 100.0 ==> r == 100.0
  {
    MinReal(100.0, confidence + priority as real / 10.0)
  }

  /** A rule against an application name and a window title. */
  function MatchRule(rule: CategoryRule, appName: string, windowTitle: string, re: RegexEngine): (r: MatchResult)
    ensures r.matched ==> r.confidence <= 100.0
    ensures rule.kind == Url ==> !r.matched
    ensures rule.kind == App && rule.appPattern == [] ==> !r.matched
    ensures rule.kind == Title && rule.titlePattern == [] ==> !r.matched
    ensures rule.kind == App && rule.appPattern != [] ==>
      var m := MatchPattern(Lower(appName), Lower(rule.appPattern), rule.matchType, re);
      r.matched == m.matched && (r.matched ==> r.confidence == Boosted(m.confidence, rule.priority))
    ensures rule.kind == Title && rule.titlePattern != [] ==>
      var m := MatchPattern(Lower(windowTitle), Lower(rule.titlePattern), rule.matchType, re);
      r.matched == m.matched && (r.matched ==> r.confidence == Boosted(m.confidence, rule.priority))
    ensures rule.kind == Combined ==>
      var a := Part(appName, rule.appPattern, rule.matchType, re);
      var t := Part(windowTitle, rule.titlePattern, rule.matchType, re);
      r.matched == (a.matched && t.matched)
      && (r.matched ==> r.confidence == Boosted((a.confidence + t.confidence) / 2.0, rule.priority))
  {
    var appLower, titleLower := Lower(appName), Lower(windowTitle);
    var m :=
      match rule.kind
      case App =>
        if rule.appPattern != [] then MatchPattern(appLower, Lower(rule.appPattern), rule.matchType, re) else NO_MATCH
      case Title =>
        if rule.titlePattern != [] then MatchPattern(titleLower, Lower(rule.titlePattern), rule.matchType, re) else NO_MATCH
      case Url => NO_MATCH
      case Combined =>
        var a := if rule.appPattern != [] then MatchPattern(appLower, Lower(rule.appPattern), rule.matchType, re)
                 else MatchResult(true, 100.0);
        var t := if rule.titlePattern != [] then MatchPattern(titleLower, Lower(rule.titlePattern), rule.matchType, re)
                 else MatchResult(true, 100.0);
        MatchResult(a.matched && t.matched, (a.confidence + t.confidence) / 2.0);
    if m.matched then m.(confidence := Boosted(m.confidence, rule.priority)) else m
  }

  // ---------------------------------------------------------------------
  // Choosing a rule

  /** What a rule offers in the scan: its confidence when it is enabled and
      matches, otherwise nothing. */
  function Score(rule: CategoryRule, appName: string, windowTitle: string, re: RegexEngine): (r: real)
    ensures !rule.isEnabled ==> r == 0.0
    ensures r <= 100.0
  {
    if !rule.isEnabled then 0.0
    else
      var m := MatchRule(rule, appName, windowTitle, re);
      if m.matched then m.confidence else 0.0
  }

  function Scores(rules: seq<CategoryRule>, appName: string, windowTitle: string, re: RegexEngine): (r: seq<real>)
    ensures |r| == |rules| && forall i :: 0 <= i < |rules| ==> r[i] == Score(rules[i], appName, windowTitle, re)
  {
    seq(|rules|, i requires 0 <= i < |rules| => Score(rules[i], appName, windowTitle, re))
  }

  /** The scan's choice, stated without the scan: rule `k` offers something,
      beats every earlier rule, and no earlier rule reached 90; then either
      it reached 90 itself (the scan stops) or no later rule beats it. */
  predicate IsSelected(s: seq<real>, k: int) {
    && 0 <= k < |s|
    && s[k] > 0.0
    && (forall j :: 0 <= j < k ==> s[j] < s[k] && s[j] < 90.0)
    && (s[k] >= 90.0 || forall j :: k < j < |s| ==> s[j] <= s[k])
  }

  /** At most one rule is the choice. */
  lemma SelectionUnique(s: seq<real>, k1: int, k2: int)
    requires IsSelected(s, k1) && IsSelected(s, k2)
    ensures k1 == k2
  {
  }

  /** The scan over the rules in order: skip disabled ones, keep a match
      with strictly greater confidence, stop once one reaches 90. */
  method SelectRule(rules: seq<CategoryRule>, appName: string, windowTitle: string, re: RegexEngine)
    returns (selected: Option<nat>, confidence: real)
    ensures selected.None? ==>
      confidence == 0.0 && forall j :: 0 <= j < |rules| ==> Score(rules[j], appName, windowTitle, re) <= 0.0
    ensures selected.Some? ==>
      IsSelected(Scores(rules, appName, windowTitle, re), selected.value)
      && confidence == Score(rules[selected.value], appName, windowTitle, re)
  {
    ghost var s := Scores(rules, appName, windowTitle, re);
    selected, confidence := None, 0.0;
    var i := 0;
    while i < |rules|
      invariant 0 <= i <= |rules|
      invariant selected.None? ==> confidence == 0.0 && forall j :: 0 <= j < i ==> s[j] <= 0.0
      invariant selected.Some? ==>
        && selected.value < i
        && confidence == s[selected.value]
        && 0.0 < confidence < 90.0
        && (forall j :: 0 <= j < selected.value ==> s[j] < confidence)
        && (forall j :: selected.value < j < i ==> s[j] <= confidence)
    {
      if rules[i].isEnabled {
        var m := MatchRule(rules[i], appName, windowTitle, re);
        if m.matched && m.confidence > confidence {
          selected, confidence := Some(i), m.confidence;
          if confidence >= 90.0 {
            break;
          }
        }
      }
      i := i + 1;
    }
  }

  /** An automatic categorisation of `a` by the rules, stated through the
      choice: with no rule on offer it is `uncategorized` with confidence 50;
      otherwise it names the chosen rule, its category (or `uncategorized`
      for an empty one) and its confidence. */
  ghost predicate AutoCategorized(rules: seq<CategoryRule>, re: RegexEngine, a: Activity, r: CategorizedActivity) {
    var s := Scores(rules, a.applicationName, a.windowTitle, re);
    && r.activityId == a.id
    && r.autoAssigned
    && r.overriddenAt.None?
    && ((forall j :: 0 <= j < |s| ==> s[j] <= 0.0) ==>
          r.categoryId == UNCATEGORIZED && r.ruleId.None? && r.confidence == 50.0)
    && (forall k :: IsSelected(s, k) ==>
          r.categoryId == OrElse(rules[k].categoryId, UNCATEGORIZED)
          && r.ruleId == Some(rules[k].id) && r.confidence == s[k])
  }

  predicate IsManual(m: map<string, CategorizedActivity>, id: string) {
    id in m && !m[id].autoAssigned
  }

  /** The stored categorisations after a category is deleted: those that
      named it now name `uncategorized`, as automatic ones. */
  function Reassigned(m: map<string, CategorizedActivity>, categoryId: string): (r: map<string, CategorizedActivity>)
    ensures r.Keys == m.Keys
    ensures forall id :: id in m && m[id].categoryId == categoryId ==>
      r[id] == m[id].(categoryId := UNCATEGORIZED, autoAssigned := true)
    ensures forall id :: id in m && m[id].categoryId != categoryId ==> r[id] == m[id]
  {
    map id | id in m :: if m[id].categoryId == categoryId then m[id].(categoryId := UNCATEGORIZED, autoAssigned := true) else m[id]
  }

  function IdsOf(acts: seq<Activity>): set<string> {
    set a | a in acts :: a.id
  }

  lemma IdsOfSnoc(acts: seq<Activity>, a: Activity)
    ensures IdsOf(acts + [a]) == IdsOf(acts) + {a.id}
  {
  }

  /** `acts[i]` is the last activity with its id. */
  predicate LastWithId(acts: seq<Activity>, i: int) {
    0 <= i < |acts| && forall j :: i < j < |acts| ==> acts[j].id != acts[i].id
  }

  /** One `categorize` call on the store `before`, giving `after`, where
      `auto(a, r)` says that `r` is an automatic categorisation of `a`. */
  ghost predicate Step(auto: (Activity, CategorizedActivity) -> bool, before: map<string, CategorizedActivity>,
                       a: Activity, after: map<string, CategorizedActivity>) {
    && (IsManual(before, a.id) ==> after == before)
    && (!IsManual(before, a.id) ==>
          a.id in after && after == before[a.id := after[a.id]] && after[a.id].autoAssigned && auto(a, after[a.id]))
  }

  /** What categorising `acts` in turn has done to the store `m0`: the
      keys, and the entries left alone ... */
  ghost predicate Kept(m0: map<string, CategorizedActivity>, acts: seq<Activity>, m: map<string, CategorizedActivity>) {
    && m.Keys == m0.Keys + IdsOf(acts)
    && (forall id :: IsManual(m0, id) ==> m[id] == m0[id])
    && (forall id :: IsManual(m, id) ==> IsManual(m0, id))
    && (forall id :: id in m0 && id !in IdsOf(acts) ==> m[id] == m0[id])
  }

  /** ... and the automatic entries, each from the last activity with its id. */
  ghost predicate AutoFromLast(auto: (Activity, CategorizedActivity) -> bool, m0: map<string, CategorizedActivity>,
                               acts: seq<Activity>, m: map<string, CategorizedActivity>) {
    forall i :: LastWithId(acts, i) && !IsManual(m0, acts[i].id) && acts[i].id in m ==> auto(acts[i], m[acts[i].id])
  }

  /** `AutoCategorized` for fixed rules and engine, as a test on pairs. */
  ghost function AutoBy(rules: seq<CategoryRule>, re: RegexEngine): (Activity, CategorizedActivity) -> bool {
    (a, r) => AutoCategorized(rules, re, a, r)
  }

  /** What `categorize` promises for one activity is one `Step` of the store. */
  lemma CategorizeIsStep(rules: seq<CategoryRule>, re: RegexEngine, before: map<string, CategorizedActivity>,
                         a: Activity, r: CategorizedActivity, after: map<string, CategorizedActivity>)
    requires IsManual(before, a.id) ==> r == before[a.id] && after == before
    requires !IsManual(before, a.id) ==> AutoCategorized(rules, re, a, r) && after == before[a.id := r]
    ensures Step(AutoBy(rules, re), before, a, after)
  {
  }

  lemma KeptStep(auto: (Activity, CategorizedActivity) -> bool, m0: map<string, CategorizedActivity>,
                 acts: seq<Activity>, m: map<string, CategorizedActivity>, a: Activity, m': map<string, CategorizedActivity>)
    requires Kept(m0, acts, m)
    requires Step(auto, m, a, m')
    ensures Kept(m0, acts + [a], m')
  {
    IdsOfSnoc(acts, a);
  }

  lemma AutoStep(auto: (Activity, CategorizedActivity) -> bool, m0: map<string, CategorizedActivity>,
                 acts: seq<Activity>, m: map<string, CategorizedActivity>, a: Activity, m': map<string, CategorizedActivity>)
    requires IsManual(m, a.id) ==> IsManual(m0, a.id)
    requires AutoFromLast(auto, m0, acts, m)
    requires Step(auto, m, a, m')
    ensures AutoFromLast(auto, m0, acts + [a], m')
  {
    var acts' := acts + [a];
    forall i | LastWithId(acts', i) && !IsManual(m0, acts'[i].id) && acts'[i].id in m'
      ensures auto(acts'[i], m'[acts'[i].id])
    {
      if i < |acts| {
        var id := acts[i].id;
        assert acts'[i] == acts[i];
        assert id != a.id by {
          assert acts'[|acts|] == a;
        }
        forall j | i < j < |acts| ensures acts[j].id != id {
          assert acts'[j] == acts[j];
        }
        assert LastWithId(acts, i);
        if !IsManual(m, a.id) {
          assert m'[id] == m[id];
        }
      }
    }
  }

  /** The activities whose start lies in the optional range. */
  function InRange(acts: seq<Activity>, startDate: Option<int>, endDate: Option<int>): (r: seq<Activity>)
    ensures forall a :: a in r <==>
      a in acts && (startDate.None? || a.startTime >= startDate.value) && (endDate.None? || a.startTime <= endDate.value)
  {
    if acts == [] then []
    else
      var a := acts[|acts| - 1];
      InRange(acts[..|acts| - 1], startDate, endDate) + (if StartsIn(a, startDate, endDate) then [a] else [])
  }

  /** `InRange`'s test on one activity. */
  predicate StartsIn(a: Activity, startDate: Option<int>, endDate: Option<int>) {
    (startDate.None? || a.startTime >= startDate.value) && (endDate.None? || a.startTime <= endDate.value)
  }

  /** The date filter works activity by activity and keeps the order, so
      the statistics sum each activity in range once per occurrence: it
      distributes over concatenation, and keeps a single activity exactly
      when it starts in the range. */
  lemma InRangeSplits(a: seq<Activity>, b: seq<Activity>, startDate: Option<int>, endDate: Option<int>)
    ensures InRange(a + b, startDate, endDate) == InRange(a, startDate, endDate) + InRange(b, startDate, endDate)
    ensures forall x :: InRange([x], startDate, endDate) == (if StartsIn(x, startDate, endDate) then [x] else [])
  {
    InRangeConcat(a, b, startDate, endDate);
    forall x ensures InRange([x], startDate, endDate) == (if StartsIn(x, startDate, endDate) then [x] else []) {
      InRangeSnoc([], x, startDate, endDate);
      assert [] + [x] == [x];
    }
  }

  lemma {:induction false} InRangeConcat(a: seq<Activity>, b: seq<Activity>, startDate: Option<int>, endDate: Option<int>)
    ensures InRange(a + b, startDate, endDate) == InRange(a, startDate, endDate) + InRange(b, startDate, endDate)
  {
    if b == [] {
      assert a + b == a;
    } else {
      var init, last := b[..|b| - 1], b[|b| - 1];
      var keep := if StartsIn(last, startDate, endDate) then [last] else [];
      assert a + b == (a + init) + [last] && b == init + [last];
      InRangeConcat(a, init, startDate, endDate);
      InRangeSnoc(a + init, last, startDate, endDate);
      InRangeSnoc(init, last, startDate, endDate);
      calc {
        InRange(a + b, startDate, endDate);
        InRange(a + init, startDate, endDate) + keep;
        InRange(a, startDate, endDate) + InRange(init, startDate, endDate) + keep;
        { SeqAssoc(InRange(a, startDate, endDate), InRange(init, startDate, endDate), keep); }
        InRange(a, startDate, endDate) + (InRange(init, startDate, endDate) + keep);
      }
    }
  }

  lemma InRangeSnoc(s: seq<Activity>, x: Activity, startDate: Option<int>, endDate: Option<int>)
    ensures InRange(s + [x], startDate, endDate) == InRange(s, startDate, endDate) + (if StartsIn(x, startDate, endDate) then [x] else [])
  {
    assert (s + [x])[..|s|] == s;
  }

  lemma TakeNewKeepsIds()
    ensures KeepsId(CategoryId, TakeNew)
    ensures KeepsId(RuleId, TakeNew)
  {
  }

  // ---------------------------------------------------------------------
  // The engine

  class CategorizationEngine {
    var categories: seq<Category>
    var rules: seq<CategoryRule>
    var categorized: map<string, CategorizedActivity>
    const re: RegexEngine

    /** The rules are kept highest priority first. */
    ghost predicate Valid()
      reads this
    {
      SortedDesc(rules, Priority)
    }

    /** The built-in categories and rules with the custom ones laid over
        them (same id: replaced, new id: appended), rules sorted by priority. */
    constructor (customCategories: seq<Category>, customRules: seq<CategoryRule>, re: RegexEngine)
      ensures Valid()
      ensures categories == Overlay(DEFAULT_CATEGORIES, customCategories, CategoryId, TakeNew)
      ensures rules == SortDesc(Overlay(DEFAULT_RULES, customRules, RuleId, TakeNew), Priority)
      ensures categorized == map[]
      ensures this.re == re
    {
      var cats := UpsertEach(DEFAULT_CATEGORIES, customCategories, CategoryId, TakeNew);
      var rs := UpsertEach(DEFAULT_RULES, customRules, RuleId, TakeNew);
      SortDescSorted(rs, Priority);
      categories := cats;
      rules := SortDesc(rs, Priority);
      categorized := map[];
      this.re := re;
    }

    /** A manual categorisation is returned as it is; otherwise the rules
        decide, and the result is stored under the activity's id. */
    method Categorize(activity: Activity) returns (r: CategorizedActivity)
      modifies this`categorized
      ensures IsManual(old(categorized), activity.id) ==>
        r == old(categorized)[activity.id] && categorized == old(categorized)
      ensures !IsManual(old(categorized), activity.id) ==>
        AutoCategorized(rules, re, activity, r) && categorized == old(categorized)[activity.id := r]
    {
      if activity.id in categorized && !categorized[activity.id].autoAssigned {
        return categorized[activity.id];
      }
      var selected, confidence := SelectRule(rules, activity.applicationName, activity.windowTitle, re);
      var categoryId := if selected.Some? then OrElse(rules[selected.value].categoryId, UNCATEGORIZED) else UNCATEGORIZED;
      var ruleId := if selected.Some? then Some(rules[selected.value].id) else None;
      r := CategorizedActivity(activity.id, categoryId, true, ruleId, if confidence == 0.0 then 50.0 else confidence, None);
      categorized := categorized[activity.id := r];
      ghost var s := Scores(rules, activity.applicationName, activity.windowTitle, re);
      forall k | IsSelected(s, k)
        ensures r.categoryId == OrElse(rules[k].categoryId, UNCATEGORIZED) && r.ruleId == Some(rules[k].id) && r.confidence == s[k]
      {
        SelectionUnique(s, k, selected.value);
      }
    }

    /** A manual categorisation: certain, not automatic, stamped with `now`. */
    method ManualCategorize(activityId: string, categoryId: string, now: int) returns (r: CategorizedActivity)
      modifies this`categorized
      ensures r == CategorizedActivity(activityId, categoryId, false, None, 100.0, Some(now))
      ensures IsManual(categorized, activityId)
      ensures categorized == old(categorized)[activityId := r]
    {
      r := CategorizedActivity(activityId, categoryId, false, None, 100.0, Some(now));
      categorized := categorized[activityId := r];
    }

    /** Categorises each activity in turn and returns the store: manual
        entries stay, and every other activity id ends up with the automatic
        categorisation of the last activity carrying it. */
    method CategorizeAll(activities: seq<Activity>) returns (m: map<string, CategorizedActivity>)
      modifies this`categorized
      ensures m == categorized
      ensures categorized.Keys == old(categorized).Keys + IdsOf(activities)
      ensures forall id :: IsManual(old(categorized), id) ==> categorized[id] == old(categorized)[id]
      ensures forall id :: id in old(categorized) && id !in IdsOf(activities) ==> categorized[id] == old(categorized)[id]
      ensures forall i :: LastWithId(activities, i) && !IsManual(old(categorized), activities[i].id) ==>
        AutoCategorized(rules, re, activities[i], categorized[activities[i].id])
    {
      ghost var auto := AutoBy(rules, re);
      for n := 0 to |activities|
        invariant Kept(old(categorized), activities[..n], categorized)
        invariant AutoFromLast(auto, old(categorized), activities[..n], categorized)
      {
        ghost var before := categorized;
        var r := Categorize(activities[n]);
        CategorizeIsStep(rules, re, before, activities[n], r, categorized);
        KeptStep(auto, old(categorized), activities[..n], before, activities[n], categorized);
        AutoStep(auto, old(categorized), activities[..n], before, activities[n], categorized);
        assert activities[..n + 1] == activities[..n] + [activities[n]];
      }
      assert activities[..|activities|] == activities;
      m := categorized;
    }

    method UpsertCategory(category: Category)
      modifies this`categories
      ensures categories == UpsertWith(old(categories), category, CategoryId, TakeNew)
    {
      categories := UpsertWith(categories, category, CategoryId, TakeNew);
    }

    /** Refuses a missing or built-in category; otherwise removes every
        category with the id and moves its activities to `uncategorized`. */
    method DeleteCategory(categoryId: string) returns (ok: bool)
      modifies this`categories, this`categorized
      ensures ok == (HasId(old(categories), CategoryId, categoryId)
                     && !Find(old(categories), CategoryId, categoryId).value.isDefault)
      ensures !ok ==> categories == old(categories) && categorized == old(categorized)
      ensures ok ==> categories == RemoveId(old(categories), CategoryId, categoryId)
                     && categorized == Reassigned(old(categorized), categoryId)
    {
      var found := Find(categories, CategoryId, categoryId);
      if found.None? || found.value.isDefault {
        return false;
      }
      categories := RemoveId(categories, CategoryId, categoryId);
      categorized := Reassigned(categorized, categoryId);
      return true;
    }

    /** Replaces the first rule with the id or appends, then re-sorts. */
    method UpsertRule(rule: CategoryRule)
      requires Valid()
      modifies this`rules
      ensures Valid()
      ensures rules == SortDesc(UpsertWith(old(rules), rule, RuleId, TakeNew), Priority)
    {
      var rs := UpsertWith(rules, rule, RuleId, TakeNew);
      SortDescSorted(rs, Priority);
      rules := SortDesc(rs, Priority);
    }

    /** Refuses a missing or built-in rule; otherwise removes every rule with the id. */
    method DeleteRule(ruleId: string) returns (ok: bool)
      requires Valid()
      modifies this`rules
      ensures Valid()
      ensures ok == (HasId(old(rules), RuleId, ruleId) && !Find(old(rules), RuleId, ruleId).value.isDefault)
      ensures !ok ==> rules == old(rules)
      ensures ok ==> rules == RemoveId(old(rules), RuleId, ruleId)
    {
      var found := Find(rules, RuleId, ruleId);
      if found.None? || found.value.isDefault {
        return false;
      }
      RemoveIdSorted(rules, RuleId, ruleId, Priority);
      rules := RemoveId(rules, RuleId, ruleId);
      return true;
    }

    /** Flips `isEnabled` of the first rule with the id, in place. */
    method ToggleRule(ruleId: string) returns (ok: bool)
      requires Valid()
      modifies this`rules
      ensures Valid()
      ensures ok == HasId(old(rules), RuleId, ruleId)
      ensures !ok ==> rules == old(rules)
      ensures ok ==>
        var k := FindIndex(old(rules), RuleId, ruleId);
        rules == old(rules)[k := old(rules)[k].(isEnabled := !old(rules)[k].isEnabled)]
    {
      var k := FindIndex(rules, RuleId, ruleId);
      if k < 0 {
        return false;
      }
      rules := rules[k := rules[k].(isEnabled := !rules[k].isEnabled)];
      assert forall i :: 0 <= i < |rules| ==> Priority(rules[i]) == Priority(old(rules)[i]);
      return true;
    }

    /** Filters by the optional date range, categorises what is left, then
        aggregates it; `hourOf` and `dayOf` read the local hour and the day
        of a time stamp. */
    method CalculateProductivityStats(activities: seq<Activity>, startDate: Option<int>, endDate: Option<int>,
                                      hourOf: int -> Productivity.Hour, dayOf: int -> int)
      returns (stats: Productivity.ProductivityStats)
      modifies this`categorized
      ensures categorized.Keys == old(categorized).Keys + IdsOf(InRange(activities, startDate, endDate))
      ensures forall id :: IsManual(old(categorized), id) ==> categorized[id] == old(categorized)[id]
      ensures forall id :: id in old(categorized) && id !in IdsOf(InRange(activities, startDate, endDate)) ==>
        categorized[id] == old(categorized)[id]
      ensures var f := InRange(activities, startDate, endDate);
        forall i :: LastWithId(f, i) && !IsManual(old(categorized), f[i].id) ==>
          AutoCategorized(rules, re, f[i], categorized[f[i].id])
      ensures Productivity.Summarizes(InRange(activities, startDate, endDate),
                                      Productivity.Context(categories, categorized, hourOf, dayOf), stats)
    {
      var filtered := InRange(activities, startDate, endDate);
      var _ := CategorizeAll(filtered);
      stats := Productivity.Aggregate(filtered, Productivity.Context(categories, categorized, hourOf, dayOf));
    }
  }

  // ---------------------------------------------------------------------
  // What the merge in the constructor produces

  /** With the built-in categories and distinct custom ids, each built-in
      category is replaced in place by the custom one with its id, and the
      other custom categories follow in their order. */
  lemma EngineCategoriesShape(customCategories: seq<Category>)
    requires DistinctIds(customCategories, CategoryId)
    ensures Overlay(DEFAULT_CATEGORIES, customCategories, CategoryId, TakeNew)
         == PatchAll(DEFAULT_CATEGORIES, customCategories, CategoryId, TakeNew)
            + Added(customCategories, DEFAULT_CATEGORIES, CategoryId)
  {
    DefaultCategoriesWellFormed();
    TakeNewKeepsIds();
    OverlayShape(DEFAULT_CATEGORIES, customCategories, CategoryId, TakeNew);
  }

  /** The same for the rules, before sorting. */
  lemma EngineRulesShape(customRules: seq<CategoryRule>)
    requires DistinctIds(customRules, RuleId)
    ensures Overlay(DEFAULT_RULES, customRules, RuleId, TakeNew)
         == PatchAll(DEFAULT_RULES, customRules, RuleId, TakeNew) + Added(customRules, DEFAULT_RULES, RuleId)
  {
    DefaultRuleIdsDistinct();
    TakeNewKeepsIds();
    OverlayShape(DEFAULT_RULES, customRules, RuleId, TakeNew);
  }

  // ---------------------------------------------------------------------
  // The module's own short duration format

  /** "Hh Mm" from an hour on, otherwise "Mm"; seconds are not shown. */
  function FormatDuration(seconds: nat): (r: string)
    ensures seconds >= 3600 ==>
      ReadNat(r) == Some((seconds / 3600, "h " + Decimal(seconds % 3600 / 60) + "m"))
    ensures seconds < 3600 ==> ReadNat(r) == Some((seconds / 60, "m"))
  {
    var c := TimeUtils.SplitSeconds(seconds);
    if c.hours > 0 then
      ReadDecimal(c.hours, "h " + Decimal(c.minutes) + "m");
      Decimal(c.hours) + ("h " + Decimal(c.minutes) + "m")
    else
      ReadDecimal(c.minutes, "m");
      Decimal(c.minutes) + "m"
  }
}
