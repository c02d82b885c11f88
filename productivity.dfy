/** The productivity statistics of `calculateProductivityStats`
    (src/utils/categorization.ts): tracked time split into productive,
    distracting and uncategorized time, a score, and breakdowns by category,
    application, hour of the day and day. */
module Productivity {
  import opened Text
  import opened Lists
  import opened StableSort
  import opened Categories
  import opened Activities
  import opened Tally

  type Hour = h: int | 0 <= h < 24

  /** What the statistics read besides the activities: the categories, the
      stored categorisations, and the local hour and calendar day of a time
      stamp (the day as a day number, which orders as the ISO date does). */
  datatype Context = Context(
    categories: seq<Category>,
    categorized: map<string, CategorizedActivity>,
    hourOf: int -> Hour,
    dayOf: int -> int)

  /** Where an activity's time is counted. */
  datatype Bucket = ProductiveTime | DistractingTime | UncategorizedTime

  datatype CategoryShare = CategoryShare(
    categoryId: string, categoryName: string, color: string,
    totalSeconds: int, percentage: int, isProductivity: bool)

  datatype AppShare = AppShare(appName: string, categoryId: string, totalSeconds: int, percentage: int)

  datatype HourShare = HourShare(
    hour: int, productiveSeconds: int, distractingSeconds: int, uncategorizedSeconds: int)

  datatype DayTrend = DayTrend(date: int, productivityScore: int, totalSeconds: int, productiveSeconds: int)

  datatype ProductivityStats = ProductivityStats(
    totalTime: int,
    productiveTime: int,
    distractingTime: int,
    uncategorizedTime: int,
    productivityScore: int,
    categoryBreakdown: seq<CategoryShare>,
    topApps: seq<AppShare>,
    hourlyBreakdown: seq<HourShare>,
    dailyTrend: seq<DayTrend>)

  const UNKNOWN_NAME: string := "Unknown"
  const UNKNOWN_COLOR: string := "#9CA3AF"
  const TOP_APPS: nat := 10

  // ---------------------------------------------------------------------
  // Classifying one activity

  /** The category the activity's stored categorisation names, when both exist. */
  function CategoryOf(a: Activity, ctx: Context): (r: Option<Category>)
    ensures r.Some? ==> a.id in ctx.categorized && r.value in ctx.categories
                        && r.value.id == ctx.categorized[a.id].categoryId
    ensures r.None? ==> a.id !in ctx.categorized
                        || !HasId(ctx.categories, CategoryId, ctx.categorized[a.id].categoryId)
  {
    if a.id in ctx.categorized then Find(ctx.categories, CategoryId, ctx.categorized[a.id].categoryId) else None
  }

  /** The category id the time is booked under: `uncategorized` without a category. */
  function CategoryKey(a: Activity, ctx: Context): (r: string)
    ensures CategoryOf(a, ctx).None? ==> r == UNCATEGORIZED
    ensures CategoryOf(a, ctx).Some? && CategoryOf(a, ctx).value.id != [] ==> r == CategoryOf(a, ctx).value.id
  {
    match CategoryOf(a, ctx)
    case None => UNCATEGORIZED
    case Some(c) => OrElse(c.id, UNCATEGORIZED)
  }

  /** A category's productivity flag; without a category, productive. */
  function IsProductive(a: Activity, ctx: Context): bool {
    match CategoryOf(a, ctx)
    case None => true
    case Some(c) => c.isProductivity
  }

  function BucketOf(a: Activity, ctx: Context): (r: Bucket)
    ensures r == UncategorizedTime <==> CategoryKey(a, ctx) == UNCATEGORIZED
    ensures r == ProductiveTime ==> CategoryOf(a, ctx).Some? && CategoryOf(a, ctx).value.isProductivity
    ensures r == DistractingTime ==> CategoryOf(a, ctx).Some? && !CategoryOf(a, ctx).value.isProductivity
  {
    if CategoryKey(a, ctx) == UNCATEGORIZED then UncategorizedTime
    else if IsProductive(a, ctx) then ProductiveTime
    else DistractingTime
  }

  // ---------------------------------------------------------------------
  // The sums the statistics report, over a list of activities

  /** The tracked (non-idle) time. */
  function Tracked(acts: seq<Activity>): int {
    if acts == [] then 0
    else
      var a := acts[|acts| - 1];
      Tracked(acts[..|acts| - 1]) + (if a.isIdle then 0 else a.duration)
  }

  /** The tracked time that falls in bucket `b`. */
  function TimeIn(acts: seq<Activity>, ctx: Context, b: Bucket): int {
    if acts == [] then 0
    else
      var a := acts[|acts| - 1];
      TimeIn(acts[..|acts| - 1], ctx, b) + (if !a.isIdle && BucketOf(a, ctx) == b then a.duration else 0)
  }

  /** The tracked time in bucket `b` of the activities that start in hour `h`. */
  function HourTime(acts: seq<Activity>, ctx: Context, h: Hour, b: Bucket): int {
    if acts == [] then 0
    else
      var a := acts[|acts| - 1];
      HourTime(acts[..|acts| - 1], ctx, h, b)
      + (if !a.isIdle && ctx.hourOf(a.startTime) == h && BucketOf(a, ctx) == b then a.duration else 0)
  }

  /** The time of each tracked activity, keyed by its category. */
  function CategoryItems(acts: seq<Activity>, ctx: Context): seq<Item<string, ()>> {
    if acts == [] then []
    else
      var a := acts[|acts| - 1];
      CategoryItems(acts[..|acts| - 1], ctx)
      + (if a.isIdle then [] else [Item(CategoryKey(a, ctx), (), a.duration, 0)])
  }

  /** The time of each tracked activity, keyed by its application, with its
      category as the information kept for the application. */
  function AppItems(acts: seq<Activity>, ctx: Context): seq<Item<string, string>> {
    if acts == [] then []
    else
      var a := acts[|acts| - 1];
      AppItems(acts[..|acts| - 1], ctx)
      + (if a.isIdle then [] else [Item(a.applicationName, CategoryKey(a, ctx), a.duration, 0)])
  }

  /** An activity's time keyed by its day; the partial amount is the
      productive part. */
  function DayItem(a: Activity, ctx: Context): Item<int, ()> {
    Item(ctx.dayOf(a.startTime), (), a.duration, if BucketOf(a, ctx) == ProductiveTime then a.duration else 0)
  }

  function DayItems(acts: seq<Activity>, ctx: Context): seq<Item<int, ()>> {
    if acts == [] then []
    else
      var a := acts[|acts| - 1];
      DayItems(acts[..|acts| - 1], ctx) + (if a.isIdle then [] else [DayItem(a, ctx)])
  }

  // ---------------------------------------------------------------------
  // Building the report from the sums

  /** `Math.round(seconds / total * 100)`, or 0 without tracked time. */
  function Percentage(seconds: int, total: int): (r: int)
    ensures total <= 0 ==> r == 0
    ensures total > 0 && 0 <= seconds <= total ==> 0 <= r <= 100
  {
    if total > 0 then JsRound(seconds as real / total as real * 100.0) else 0
  }

  /** The productive share of the categorised time, in percent; 0 without
      tracked time or when all of it is uncategorized. */
  function ProductivityScore(total: int, productive: int, uncategorized: int): (r: int)
    ensures total <= 0 || total == uncategorized ==> r == 0
    ensures 0 <= productive <= total - uncategorized ==> 0 <= r <= 100
    ensures total > 0 && 0 < productive == total - uncategorized ==> r == 100
  {
    if total > 0 && total - uncategorized != 0
    then JsRound(productive as real / (total - uncategorized) as real * 100.0)
    else 0
  }

  function CategoryShareOf(e: Entry<string, ()>, categories: seq<Category>, total: int): CategoryShare {
    match Find(categories, CategoryId, e.key)
    case None => CategoryShare(e.key, UNKNOWN_NAME, UNKNOWN_COLOR, e.total, Percentage(e.total, total), true)
    case Some(c) =>
      CategoryShare(e.key, OrElse(c.name, UNKNOWN_NAME), OrElse(c.color, UNKNOWN_COLOR),
                    e.total, Percentage(e.total, total), c.isProductivity)
  }

  function CategoryShares(t: seq<Entry<string, ()>>, categories: seq<Category>, total: int): (r: seq<CategoryShare>)
    ensures |r| == |t| && forall i :: 0 <= i < |t| ==> r[i] == CategoryShareOf(t[i], categories, total)
  {
    seq(|t|, i requires 0 <= i < |t| => CategoryShareOf(t[i], categories, total))
  }

  function AppShares(t: seq<Entry<string, string>>, total: int): (r: seq<AppShare>)
    ensures |r| == |t|
    ensures forall i :: 0 <= i < |t| ==>
      r[i] == AppShare(t[i].key, t[i].info, t[i].total, Percentage(t[i].total, total))
  {
    seq(|t|, i requires 0 <= i < |t| => AppShare(t[i].key, t[i].info, t[i].total, Percentage(t[i].total, total)))
  }

  function DayTrends(t: seq<Entry<int, ()>>): (r: seq<DayTrend>)
    ensures |r| == |t|
    ensures forall i :: 0 <= i < |t| ==>
      r[i] == DayTrend(t[i].key, Percentage(t[i].part, t[i].total), t[i].total, t[i].part)
  {
    seq(|t|, i requires 0 <= i < |t| => DayTrend(t[i].key, Percentage(t[i].part, t[i].total), t[i].total, t[i].part))
  }

  function ShareSeconds(c: CategoryShare): int { c.totalSeconds }
  function AppSeconds(a: AppShare): int { a.totalSeconds }
  /** Sorting descending by the negated date sorts by date. */
  function NegatedDate(d: DayTrend): int { -d.date }

  /** The first `n` elements (`slice(0, n)`). */
  function Take<T>(s: seq<T>, n: nat): (r: seq<T>)
    ensures |r| <= n && |r| <= |s| && r == s[..|r|]
    ensures |s| <= n ==> r == s
  {
    if |s| <= n then s else s[..n]
  }

  /** What `calculateProductivityStats` reports for the activities `acts`. */
  ghost predicate Summarizes(acts: seq<Activity>, ctx: Context, stats: ProductivityStats) {
    var total := Tracked(acts);
    && stats.totalTime == total
    && stats.productiveTime == TimeIn(acts, ctx, ProductiveTime)
    && stats.distractingTime == TimeIn(acts, ctx, DistractingTime)
    && stats.uncategorizedTime == TimeIn(acts, ctx, UncategorizedTime)
    && stats.productivityScore
       == ProductivityScore(total, stats.productiveTime, stats.uncategorizedTime)
    && stats.categoryBreakdown
       == SortDesc(CategoryShares(TallyOf(CategoryItems(acts, ctx)), ctx.categories, total), ShareSeconds)
    && stats.topApps == Take(SortDesc(AppShares(TallyOf(AppItems(acts, ctx)), total), AppSeconds), TOP_APPS)
    && |stats.hourlyBreakdown| == 24
    && (forall h: Hour :: stats.hourlyBreakdown[h] == HourRow(acts, ctx, h))
    && stats.dailyTrend == SortDesc(DayTrends(TallyOf(DayItems(acts, ctx))), NegatedDate)
  }

  /** The row of the hourly breakdown for hour `h`. */
  function HourRow(acts: seq<Activity>, ctx: Context, h: Hour): HourShare {
    HourShare(h, HourTime(acts, ctx, h, ProductiveTime), HourTime(acts, ctx, h, DistractingTime),
              HourTime(acts, ctx, h, UncategorizedTime))
  }

  // ---------------------------------------------------------------------
  // The aggregation loop

  /** Adds `d` seconds to the column of `bucket`. */
  function Book(row: HourShare, bucket: Bucket, d: int): (r: HourShare)
    ensures r.hour == row.hour
    ensures r.productiveSeconds == row.productiveSeconds + (if bucket == ProductiveTime then d else 0)
    ensures r.distractingSeconds == row.distractingSeconds + (if bucket == DistractingTime then d else 0)
    ensures r.uncategorizedSeconds == row.uncategorizedSeconds + (if bucket == UncategorizedTime then d else 0)
  {
    match bucket
    case UncategorizedTime => row.(uncategorizedSeconds := row.uncategorizedSeconds + d)
    case ProductiveTime => row.(productiveSeconds := row.productiveSeconds + d)
    case DistractingTime => row.(distractingSeconds := row.distractingSeconds + d)
  }

  /** The accumulators of the pass over the activities. */
  datatype Sums = Sums(
    total: int, productive: int, distracting: int, uncategorized: int,
    byCategory: seq<Entry<string, ()>>, byApp: seq<Entry<string, string>>,
    byDay: seq<Entry<int, ()>>, hourly: seq<HourShare>)

  function EmptyHours(): (r: seq<HourShare>)
    ensures |r| == 24 && forall h :: 0 <= h < 24 ==> r[h] == HourShare(h, 0, 0, 0)
  {
    seq(24, h => HourShare(h, 0, 0, 0))
  }

  /** What the pass does with one activity: an idle one is skipped. */
  function Record(s: Sums, a: Activity, ctx: Context): (r: Sums)
    requires |s.hourly| == 24
    ensures |r.hourly| == 24
  {
    if a.isIdle then s
    else
      var d, key, bucket, hr := a.duration, CategoryKey(a, ctx), BucketOf(a, ctx), ctx.hourOf(a.startTime);
      Sums(s.total + d,
           s.productive + (if bucket == ProductiveTime then d else 0),
           s.distracting + (if bucket == DistractingTime then d else 0),
           s.uncategorized + (if bucket == UncategorizedTime then d else 0),
           Add(s.byCategory, Item(key, (), d, 0)),
           Add(s.byApp, Item(a.applicationName, key, d, 0)),
           Add(s.byDay, DayItem(a, ctx)),
           s.hourly[hr := Book(s.hourly[hr], bucket, d)])
  }

  /** The accumulators after the pass over `acts`. */
  function SumsOf(acts: seq<Activity>, ctx: Context): (r: Sums)
    ensures |r.hourly| == 24
  {
    if acts == [] then Sums(0, 0, 0, 0, [], [], [], EmptyHours())
    else Record(SumsOf(acts[..|acts| - 1], ctx), acts[|acts| - 1], ctx)
  }

  /** One step of the pass adds a tracked activity's time to the total and
      to the column of its bucket. */
  lemma RecordTotals(s: Sums, a: Activity, ctx: Context)
    requires |s.hourly| == 24
    ensures var r, d := Record(s, a, ctx), if a.isIdle then 0 else a.duration;
      && r.total == s.total + d
      && r.productive == s.productive + (if BucketOf(a, ctx) == ProductiveTime then d else 0)
      && r.distracting == s.distracting + (if BucketOf(a, ctx) == DistractingTime then d else 0)
      && r.uncategorized == s.uncategorized + (if BucketOf(a, ctx) == UncategorizedTime then d else 0)
  {
  }

  /** The totals the pass accumulates are the tracked time and its split. */
  lemma {:induction false} SumsTotals(acts: seq<Activity>, ctx: Context)
    ensures var s := SumsOf(acts, ctx);
      && s.total == Tracked(acts)
      && s.productive == TimeIn(acts, ctx, ProductiveTime)
      && s.distracting == TimeIn(acts, ctx, DistractingTime)
      && s.uncategorized == TimeIn(acts, ctx, UncategorizedTime)
  {
    if acts != [] {
      SumsTotals(acts[..|acts| - 1], ctx);
      RecordTotals(SumsOf(acts[..|acts| - 1], ctx), acts[|acts| - 1], ctx);
    }
  }

  /** The three maps the pass fills are the tallies of the activities' time
      by category, by application and by day. */
  lemma {:induction false} SumsTallies(acts: seq<Activity>, ctx: Context)
    ensures var s := SumsOf(acts, ctx);
      && s.byCategory == TallyOf(CategoryItems(acts, ctx))
      && s.byApp == TallyOf(AppItems(acts, ctx))
      && s.byDay == TallyOf(DayItems(acts, ctx))
  {
    if acts != [] {
      var init, a := acts[..|acts| - 1], acts[|acts| - 1];
      SumsTallies(init, ctx);
      if a.isIdle {
        assert CategoryItems(init, ctx) + [] == CategoryItems(init, ctx);
        assert AppItems(init, ctx) + [] == AppItems(init, ctx);
        assert DayItems(init, ctx) + [] == DayItems(init, ctx);
      } else {
        TallyOfSnoc(CategoryItems(init, ctx), Item(CategoryKey(a, ctx), (), a.duration, 0));
        TallyOfSnoc(AppItems(init, ctx), Item(a.applicationName, CategoryKey(a, ctx), a.duration, 0));
        TallyOfSnoc(DayItems(init, ctx), DayItem(a, ctx));
      }
    }
  }

  /** Row `h` of the hourly breakdown holds the sums of the activities that
      start in hour `h`. */
  lemma {:induction false} SumsHours(acts: seq<Activity>, ctx: Context)
    ensures forall h: Hour :: SumsOf(acts, ctx).hourly[h] == HourRow(acts, ctx, h)
  {
    if acts != [] {
      SumsHours(acts[..|acts| - 1], ctx);
    }
  }

  /** The pass over the activities (the `forEach`), skipping idle ones. */
  method Accumulate(acts: seq<Activity>, ctx: Context) returns (sums: Sums)
    ensures sums == SumsOf(acts, ctx)
  {
    var total, productive, distracting, uncategorized := 0, 0, 0, 0;
    var byCategory: seq<Entry<string, ()>> := [];
    var byApp: seq<Entry<string, string>> := [];
    var byDay: seq<Entry<int, ()>> := [];
    var hourly: seq<HourShare> := [];
    for h := 0 to 24
      invariant |hourly| == h
      invariant forall g :: 0 <= g < h ==> hourly[g] == HourShare(g, 0, 0, 0)
    {
      hourly := hourly + [HourShare(h, 0, 0, 0)];
    }
    assert hourly == EmptyHours();

    for i := 0 to |acts|
      invariant |hourly| == 24
      invariant Sums(total, productive, distracting, uncategorized, byCategory, byApp, byDay, hourly)
                == SumsOf(acts[..i], ctx)
    {
      var a := acts[i];
      assert acts[..i + 1][..i] == acts[..i];
      assert SumsOf(acts[..i + 1], ctx) == Record(SumsOf(acts[..i], ctx), a, ctx);
      if !a.isIdle {
        var d := a.duration;
        total := total + d;
        var key := CategoryKey(a, ctx);
        byCategory := Add(byCategory, Item(key, (), d, 0));
        var bucket := BucketOf(a, ctx);
        if bucket == UncategorizedTime {
          uncategorized := uncategorized + d;
        } else if bucket == ProductiveTime {
          productive := productive + d;
        } else {
          distracting := distracting + d;
        }
        byApp := Add(byApp, Item(a.applicationName, key, d, 0));
        var hr := ctx.hourOf(a.startTime);
        hourly := hourly[hr := Book(hourly[hr], bucket, d)];
        byDay := Add(byDay, Item(ctx.dayOf(a.startTime), (), d, if bucket == ProductiveTime then d else 0));
      }
    }
    assert acts[..|acts|] == acts;
    sums := Sums(total, productive, distracting, uncategorized, byCategory, byApp, byDay, hourly);
  }

  /** `calculateProductivityStats` after filtering and categorising: the
      pass, then the score and the sorted breakdowns. */
  method Aggregate(acts: seq<Activity>, ctx: Context) returns (stats: ProductivityStats)
    ensures Summarizes(acts, ctx, stats)
  {
    var s := Accumulate(acts, ctx);
    SumsTotals(acts, ctx);
    SumsTallies(acts, ctx);
    SumsHours(acts, ctx);
    var score := ProductivityScore(s.total, s.productive, s.uncategorized);
    var breakdown := SortDesc(CategoryShares(s.byCategory, ctx.categories, s.total), ShareSeconds);
    var topApps := Take(SortDesc(AppShares(s.byApp, s.total), AppSeconds), TOP_APPS);
    var daily := SortDesc(DayTrends(s.byDay), NegatedDate);
    stats := ProductivityStats(s.total, s.productive, s.distracting, s.uncategorized, score,
                               breakdown, topApps, s.hourly, daily);
  }

  // ---------------------------------------------------------------------
  // Properties of the report

  /** The tracked time is split without remainder into productive,
      distracting and uncategorized time. */
  lemma {:induction false} TrackedSplits(acts: seq<Activity>, ctx: Context)
    ensures Tracked(acts)
         == TimeIn(acts, ctx, ProductiveTime) + TimeIn(acts, ctx, DistractingTime) + TimeIn(acts, ctx, UncategorizedTime)
  {
    if acts != [] {
      TrackedSplits(acts[..|acts| - 1], ctx);
    }
  }

  predicate NonNegativeDurations(acts: seq<Activity>) {
    forall i :: 0 <= i < |acts| ==> acts[i].duration >= 0
  }

  lemma {:induction false} TimeInNonNegative(acts: seq<Activity>, ctx: Context, b: Bucket)
    requires NonNegativeDurations(acts)
    ensures TimeIn(acts, ctx, b) >= 0
  {
    if acts != [] {
      TimeInNonNegative(acts[..|acts| - 1], ctx, b);
    }
  }

  /** The activities that are not idle, in order. */
  function NonIdle(acts: seq<Activity>): (r: seq<Activity>)
    ensures forall a :: a in r <==> a in acts && !a.isIdle
  {
    if acts == [] then []
    else
      var a := acts[|acts| - 1];
      NonIdle(acts[..|acts| - 1]) + (if a.isIdle then [] else [a])
  }

  lemma NonIdleSnoc(acts: seq<Activity>)
    requires acts != []
    ensures var init, a := acts[..|acts| - 1], acts[|acts| - 1];
      NonIdle(acts) == if a.isIdle then NonIdle(init) else NonIdle(init) + [a]
  {
    var init, a := acts[..|acts| - 1], acts[|acts| - 1];
    if a.isIdle {
      assert NonIdle(init) + [] == NonIdle(init);
    }
  }

  /** Idle activities count for nothing: the pass over all the activities
      ends exactly where the pass over the non-idle ones does. */
  lemma {:induction false} IdleSkipped(acts: seq<Activity>, ctx: Context)
    ensures SumsOf(acts, ctx) == SumsOf(NonIdle(acts), ctx)
  {
    if acts != [] {
      var init, a := acts[..|acts| - 1], acts[|acts| - 1];
      IdleSkipped(init, ctx);
      NonIdleSnoc(acts);
      if !a.isIdle {
        assert (NonIdle(init) + [a])[..|NonIdle(init)|] == NonIdle(init);
      }
    }
  }

  /** The tracked time is split into the three kinds; the score is 0
      without tracked time or when all of it is uncategorized, and lies in
      0..100 when no duration is negative. */
  lemma StatsTotals(acts: seq<Activity>, ctx: Context, stats: ProductivityStats)
    requires Summarizes(acts, ctx, stats)
    ensures stats.totalTime == stats.productiveTime + stats.distractingTime + stats.uncategorizedTime
    ensures stats.totalTime <= 0 || stats.totalTime == stats.uncategorizedTime ==> stats.productivityScore == 0
    ensures NonNegativeDurations(acts) ==> 0 <= stats.productivityScore <= 100
  {
    TrackedSplits(acts, ctx);
    if NonNegativeDurations(acts) {
      TimeInNonNegative(acts, ctx, DistractingTime);
      TimeInNonNegative(acts, ctx, ProductiveTime);
    }
  }

  /** There are 24 hourly rows, hour by hour. */
  lemma StatsHours(acts: seq<Activity>, ctx: Context, stats: ProductivityStats)
    requires Summarizes(acts, ctx, stats)
    ensures |stats.hourlyBreakdown| == 24
    ensures forall h :: 0 <= h < 24 ==> stats.hourlyBreakdown[h].hour == h
  {
    forall h | 0 <= h < 24 ensures stats.hourlyBreakdown[h].hour == h {
      assert stats.hourlyBreakdown[h] == HourRow(acts, ctx, h);
    }
  }

  /** The category and application lists are ordered by time, largest
      first, and there are at most ten applications. */
  lemma StatsRankings(acts: seq<Activity>, ctx: Context, stats: ProductivityStats)
    requires Summarizes(acts, ctx, stats)
    ensures |stats.topApps| <= 10
    ensures SortedDesc(stats.categoryBreakdown, ShareSeconds)
    ensures SortedDesc(stats.topApps, AppSeconds)
  {
    var shares := CategoryShares(TallyOf(CategoryItems(acts, ctx)), ctx.categories, Tracked(acts));
    SortDescSorted(shares, ShareSeconds);
    var apps := AppShares(TallyOf(AppItems(acts, ctx)), Tracked(acts));
    SortDescSorted(apps, AppSeconds);
    SortedPrefix(SortDesc(apps, AppSeconds), |stats.topApps|, AppSeconds);
  }

  lemma SortedPrefix<T>(s: seq<T>, n: int, key: T -> int)
    requires SortedDesc(s, key) && 0 <= n <= |s|
    ensures SortedDesc(s[..n], key)
  {
  }

  /** Each category row carries the whole tracked time booked under its category. */
  lemma StatsCategoryTotals(acts: seq<Activity>, ctx: Context, stats: ProductivityStats)
    requires Summarizes(acts, ctx, stats)
    ensures forall c :: c in stats.categoryBreakdown ==>
      c.totalSeconds == SumFor(CategoryItems(acts, ctx), c.categoryId)
  {
    var t := TallyOf(CategoryItems(acts, ctx));
    var shares := CategoryShares(t, ctx.categories, Tracked(acts));
    TallyEntries(CategoryItems(acts, ctx));
    SortDescPermutes(shares, ShareSeconds);
    forall c | c in stats.categoryBreakdown
      ensures c.totalSeconds == SumFor(CategoryItems(acts, ctx), c.categoryId)
    {
      assert c in multiset(shares);
      var i :| 0 <= i < |shares| && shares[i] == c;
      assert EntryMatches(CategoryItems(acts, ctx), t[i]);
    }
  }

  /** Each application row carries the whole tracked time of its application. */
  lemma StatsAppTotals(acts: seq<Activity>, ctx: Context, stats: ProductivityStats)
    requires Summarizes(acts, ctx, stats)
    ensures forall a :: a in stats.topApps ==> a.totalSeconds == SumFor(AppItems(acts, ctx), a.appName)
  {
    var u := TallyOf(AppItems(acts, ctx));
    var apps := AppShares(u, Tracked(acts));
    TallyEntries(AppItems(acts, ctx));
    SortDescPermutes(apps, AppSeconds);
    var sorted := SortDesc(apps, AppSeconds);
    forall a | a in stats.topApps ensures a.totalSeconds == SumFor(AppItems(acts, ctx), a.appName) {
      assert a in sorted;
      assert a in multiset(apps);
      var i :| 0 <= i < |apps| && apps[i] == a;
      assert EntryMatches(AppItems(acts, ctx), u[i]);
    }
  }

  /** The daily trend lists each day once, in date order. */
  lemma StatsDays(acts: seq<Activity>, ctx: Context, stats: ProductivityStats)
    requires Summarizes(acts, ctx, stats)
    ensures forall i, j :: 0 <= i < j < |stats.dailyTrend| ==> stats.dailyTrend[i].date < stats.dailyTrend[j].date
  {
    assert stats.dailyTrend == SortDesc(DayTrends(TallyOf(DayItems(acts, ctx))), NegatedDate);
    DailyTrendOrdered(DayItems(acts, ctx));
  }

  /** The trend rows are one per day. */
  lemma DayTrendsDistinct(t: seq<Entry<int, ()>>)
    requires DistinctKeys(t)
    ensures KeysDistinct(DayTrends(t), NegatedDate)
  {
    var days := DayTrends(t);
    forall i, j | 0 <= i < j < |days| ensures NegatedDate(days[i]) != NegatedDate(days[j]) {
      assert days[i].date == t[i].key && days[j].date == t[j].key;
    }
  }

  /** The daily trend lists each day once, in date order. */
  lemma DailyTrendOrdered(items: seq<Item<int, ()>>)
    ensures var d := SortDesc(DayTrends(TallyOf(items)), NegatedDate);
      forall i, j :: 0 <= i < j < |d| ==> d[i].date < d[j].date
  {
    var days := DayTrends(TallyOf(items));
    TallyKeys(items);
    DayTrendsDistinct(TallyOf(items));
    SortDescSorted(days, NegatedDate);
    SortDescKeysDistinct(days, NegatedDate);
  }
}
