# timetracker, modelled in Dafny

This project models the core of the timetracker application. The
application records which application window or browser tab a person
spends time in. It cuts that time into activities, sorts them into
categories by rules, and sums them into productivity statistics and
timesheets. The model covers these parts:

- **Desktop tracker** (`desktop_tracker.dfy`, `desktop_rules.dfy`, `desktop_titles.dfy`): the
  `ActivityTracker` class of electron/tracker.js. It is a state machine
  over tracking, pausing, idleness and the open activity. It is fed window
  samples and system events (suspend, resume, lock, unlock), closes
  activities, and adds them to its statistics. Its rule-based
  categorisation tries custom rules first, then the default rule of
  highest priority. Its title normalisation ignores counters and clock
  times.
- **Browser-tab tracker** (`tab_tracker.dfy`): the `useTabTracker` hook as
  a class. Sessions are cut at title changes, visibility changes and idle
  time-outs. Each session that is long enough is dropped, merged into the
  last pending activity, or logged and counted. The model also covers the
  title cleaning, browser detection and domain extraction it uses.
- **Categorisation engine** (`categorization.dfy`, `productivity.dfy`,
  `tally.dfy`, `stable_sort.dfy`): the `CategorizationEngine` class of
  src/utils/categorization.ts. This covers pattern and rule matching with
  confidences, the choice of the best rule, the manual and automatic
  categorisation store, and category and rule maintenance. It also covers
  `calculateProductivityStats` with its totals, score, rankings, hourly
  and daily breakdowns.
- **Category store** (`category_sync.dfy`, `lists.dfy`, `categories.dfy`): the local state
  updates of src/hooks/useCategorySync.ts, which overlay stored custom
  entries on the built-in ones and save, delete and toggle entries. It
  also holds the built-in categories and rules of src/types/categories.ts.
- **Time tracker** (`time_tracker.dfy`): the local reducers of
  src/hooks/useTimeTracker.ts over projects, tasks and activities:
  coding, deleting, manual entries and new projects. It also covers the
  timesheet and summary computed from them.
- **Time utilities** (`time_utils.dfy`): the duration formats, the day
  list and the relative-time labels of src/utils/timeUtils.ts.

Shared definitions live in `text.dfy` (strings, optional values and the
regular-expression engine as an abstract value) and `activities.dfy` (the
activity record).

Time stamps are integer milliseconds and durations are whole seconds.
The clock, the window sampler, the id generator, the URL parser, the
calendar-day and hour-of-day functions and the regular-expression engine
are inputs to the operations that use them.

Two behaviours of the tab tracker are stated as proved properties, not as
errors:

- **Counters follow the caller's flag.** The idle and active counters
  follow the flag passed to `completeSession`, not the session's own
  idleness (`TabTracker.IdleSessionCountedActive`).
- **The unload snapshot never merges.** The snapshot saved on unload
  appends even where completion would merge
  (`TabTracker.TabTracker.SnapshotVersusCompletion`).

## Model

| member | source | states |
|---|---|---|
| TimeUtils.SplitSeconds | src/utils/timeUtils.ts:4-6 | the hours, the minutes past the hour and the seconds past the minute form a valid clock reading that adds back up to the input |
| TimeUtils.SplitUnique | src/utils/timeUtils.ts:4-6 | a valid clock reading is the split of its own total, so the split is the only such reading |
| TimeUtils.FormatDurationReads | src/utils/timeUtils.ts:3-14 | the short form reads back as hours and minutes from an hour on, as minutes and seconds from a minute on, and as seconds below a minute |
| TimeUtils.ReadsHoursMinutes | src/utils/timeUtils.ts:9 | "Hh Mm" reads back as the pair (H, M) |
| TimeUtils.ReadsMinutesSeconds | src/utils/timeUtils.ts:11 | "Mm Ss" reads back as the pair (M, S) |
| TimeUtils.FormatDurationDistinguishes | src/utils/timeUtils.ts:8-9 | two durations of an hour or more with the same short form agree to the minute |
| TimeUtils.Pad2 | src/utils/timeUtils.ts:21 | the padded numeral has at least two characters, and exactly two below 100 |
| TimeUtils.Pad2Reads | src/utils/timeUtils.ts:21 | the padded numeral is all digits and still has the value n |
| TimeUtils.FormatDurationClockShape | src/utils/timeUtils.ts:16-22 | the clock form has at least eight characters, colons third and sixth from the end, and digits everywhere else |
| TimeUtils.ReadsClock | src/utils/timeUtils.ts:21 | three padded fields joined by colons read back as h*3600 + m*60 + s |
| TimeUtils.FormatDurationClockRoundTrip | src/utils/timeUtils.ts:16-22 | the clock form reads back as exactly the number of seconds formatted |
| TimeUtils.FormatDurationLongReads | src/utils/timeUtils.ts:24-32 | the long form starts with the hours (from an hour on) or the minutes; " hour" is followed by "s" iff the hours are not 1; the text ends in "s" iff the minutes are not 1 |
| TimeUtils.LongHours | src/utils/timeUtils.ts:29 | "H hour(s) M min(s)" starts with H, has "s" after "hour" iff H != 1 and ends in "s" iff M != 1 |
| TimeUtils.LongMinutes | src/utils/timeUtils.ts:31 | "M minute(s)" starts with M and ends in "s" iff M != 1 |
| TimeUtils.DaysBetween | src/utils/timeUtils.ts:68-76 | the loop lists start, start + 1 day, ... : every listed day is at most `end`, the next one would be past it, their count is (end - start) / day + 1, and none when start > end |
| TimeUtils.RelativeTime | src/utils/timeUtils.ts:93-105 | the band (just now, minutes, hours, days, a date) is chosen iff the difference lies in its range, and the count n satisfies n units <= difference < n + 1 units |
| TimeUtils.RelativeText | src/utils/timeUtils.ts:101-104 | "Nm ago", "Nh ago" and "Nd ago" read back as N followed by the unit and " ago" |
| Categorization.MatchPattern | src/utils/categorization.ts:144-189 | exact matches iff equal (100); contains iff the text includes the pattern, scoring 60 + 40 x (pattern length / text length); startsWith/endsWith iff prefix/suffix (90); regex iff the engine tests true (85); no match gives 0, a match 60 to 100 |
| Categorization.ContainsConfidence | src/utils/categorization.ts:158-163 | a contains match is certain (100) exactly when the pattern is the whole text |
| Categorization.Boosted | src/utils/categorization.ts:136-138 | the boosted confidence is exactly min(100, confidence + priority/10) |
| Categorization.MatchRule | src/utils/categorization.ts:91-141 | url rules and app/title rules without a pattern never match; app and title rules match as their lower-cased pattern does, boosted by priority; combined rules need both parts (an absent part counts as certain) and average them |
| Categorization.Score | src/utils/categorization.ts:65-68 | a disabled rule offers 0, and no rule offers more than 100 |
| Categorization.SelectionUnique | src/utils/categorization.ts:65-76 | at most one rule is the scan's choice |
| Categorization.SelectRule | src/utils/categorization.ts:61-76 | the scan returns no rule (confidence 0) iff no rule offers anything; otherwise it returns the first rule that beats every earlier one, where each earlier offer was below 90, and later rules offer no more unless it reached 90 |
| Categorization.Reassigned | src/utils/categorization.ts:246-251 | deleting a category keeps every stored activity; those in the category become uncategorized and automatic, the others are untouched |
| Categorization.KeptStep | src/utils/categorization.ts:206-207 | each categorize call in turn keeps manual entries and adds exactly the processed ids |
| Categorization.AutoStep | src/utils/categorization.ts:206-207 | after each call, each automatic entry is the categorisation of the last activity with its id |
| Categorization.InRange | src/utils/categorization.ts:301-310 | an activity is kept iff it starts within the optional date range (order and repetitions: InRangeSplits) |
| Categorization.InRangeSplits | src/utils/categorization.ts:301-310 | the date filter of a concatenation is the filter of each part in turn, and a single activity is kept iff it starts within the range, so every activity in range is summed once per occurrence, in order |
| Categorization.CategorizationEngine.constructor | src/utils/categorization.ts:18-48 | the categories are the built-ins with the custom ones laid over (same id replaces, new id appends), and the rules likewise, sorted by priority (stable, highest first) |
| Categorization.EngineCategoriesShape | src/utils/categorization.ts:23-31 | with distinct custom ids, the overlay of the built-in categories is the built-ins patched in place followed by the new ones |
| Categorization.EngineRulesShape | src/utils/categorization.ts:34-42 | the same for the rules, before the sort |
| Categorization.CategorizationEngine.Categorize | src/utils/categorization.ts:51-88 | a manual categorisation is returned unchanged; otherwise the result is automatic, names the selected rule's category (or "uncategorized" with confidence 50) and is stored under the activity's id |
| Categorization.CategorizationEngine.ManualCategorize | src/utils/categorization.ts:192-203 | the stored result is manual, certain (100) and stamped with the time |
| Categorization.CategorizationEngine.CategorizeAll | src/utils/categorization.ts:206-209 | the store gains exactly the activities' ids, keeps manual entries and untouched ids, and each automatic entry comes from the last activity with its id |
| Categorization.CategorizationEngine.UpsertCategory | src/utils/categorization.ts:229-236 | the first category with the id is replaced, or the category is appended |
| Categorization.CategorizationEngine.DeleteCategory | src/utils/categorization.ts:239-254 | refuses (and changes nothing) iff the category is missing or built in; otherwise removes it and reassigns its activities |
| Categorization.CategorizationEngine.UpsertRule | src/utils/categorization.ts:267-276 | the rule replaces the first with its id or is appended, and the list is re-sorted by priority, keeping the sort invariant |
| Categorization.CategorizationEngine.DeleteRule | src/utils/categorization.ts:279-285 | refuses iff the rule is missing or built in; otherwise every rule with the id is removed |
| Categorization.CategorizationEngine.ToggleRule | src/utils/categorization.ts:288-293 | refuses iff the rule is missing; otherwise flips `isEnabled` of the first rule with the id and nothing else |
| Categorization.CategorizationEngine.CalculateProductivityStats | src/utils/categorization.ts:296-450 | the activities in range are categorised: manual entries are kept, every in-range activity without a manual entry gets the rules' automatic categorisation (the last occurrence of an id wins), other ids keep their entry, and the returned statistics summarize exactly the in-range activities |
| Categorization.FormatDuration | src/utils/categorization.ts:494-502 | the text reads back as the hours followed by "h " and the minutes from an hour on, and as the minutes followed by "m" below |
| Productivity.CategoryOf | src/utils/categorization.ts:337-340 | an activity's category is the listed category whose id its stored categorisation names, and there is none when it has no categorisation or the id is not listed |
| Productivity.CategoryKey | src/utils/categorization.ts:342 | an activity without a category is keyed "uncategorized"; otherwise by its category's (non-empty) id |
| Productivity.BucketOf | src/utils/categorization.ts:343-355 | the bucket is "uncategorized" iff the key is; productive time has a productive category, distracting time a non-productive one |
| Productivity.Percentage | src/utils/categorization.ts:401 | 0 when there is no total, and between 0 and 100 for a part of the total |
| Productivity.ProductivityScore | src/utils/categorization.ts:388-390 | 0 without tracked time or when all of it is uncategorized (with non-negative durations productive time is then 0 too, the NaN case of `|| 0`); between 0 and 100 when productive time lies within the categorized time, and 100 when all categorized time is productive |
| Productivity.Book | src/utils/categorization.ts:368-375 | the hour row gains the duration in the activity's bucket and nowhere else |
| Productivity.SumsTotals | src/utils/categorization.ts:331-355 | the running totals are the tracked time and the time in each bucket, over the non-idle activities |
| Productivity.SumsTallies | src/utils/categorization.ts:345-384 | the per-category, per-application and per-day maps are the tallies of the non-idle activities, in first-occurrence order |
| Productivity.SumsHours | src/utils/categorization.ts:326-375 | each of the 24 hour rows holds that hour's seconds per bucket |
| Productivity.Accumulate | src/utils/categorization.ts:316-385 | the `forEach` loop computes exactly the specification sums of the activities |
| Productivity.Aggregate | src/utils/categorization.ts:316-448 | the returned statistics summarize the activities: totals, score, category breakdown sorted by seconds, top ten applications, 24 hour rows and the daily trend by date |
| Productivity.TrackedSplits | src/utils/categorization.ts:349-355 | the tracked time is the sum of the three buckets |
| Productivity.IdleSkipped | src/utils/categorization.ts:332 | idle activities contribute nothing: the sums over the activities equal those over the non-idle ones |
| Productivity.StatsTotals | src/utils/categorization.ts:388-390 | total = productive + distracting + uncategorized; the score is 0 without categorized time and within 0..100 for non-negative durations |
| Productivity.StatsHours | src/utils/categorization.ts:418-426 | there are 24 hour rows, row h being hour h |
| Productivity.StatsRankings | src/utils/categorization.ts:392-416 | at most ten top applications; categories and applications are ordered by seconds, most first |
| Productivity.StatsCategoryTotals | src/utils/categorization.ts:346-405 | each category's seconds are the sum of the non-idle durations in that category |
| Productivity.StatsAppTotals | src/utils/categorization.ts:358-416 | each listed application's seconds are the sum of its non-idle durations |
| Productivity.StatsDays | src/utils/categorization.ts:428-436 | the daily trend is strictly increasing by date, so each day appears once |
| Productivity.DailyTrendOrdered | src/utils/categorization.ts:429-436 | sorting the day tallies gives strictly increasing dates |
| Productivity.Take | src/utils/categorization.ts:416 | `slice(0, n)`: a prefix of at most n elements, the whole list when it is short enough |
| StableSort.SortDescPermutes | src/utils/categorization.ts:45 | the priority sort returns a permutation of its input |
| StableSort.SortDescSorted | src/utils/categorization.ts:45 | the sort's output is ordered by key, highest first (`b.priority - a.priority`) |
| StableSort.SortDescStable | src/utils/categorization.ts:45 | the sort is stable: the elements of each key keep their relative order (`Array.prototype.sort` is stable) |
| StableSort.SortDescOfSorted | src/utils/categorization.ts:274-275 | re-sorting an already ordered list leaves it unchanged |
| StableSort.SortDescKeysDistinct | src/utils/categorization.ts:45 | sorting keeps keys pairwise distinct |
| Tally.IndexOf | src/utils/categorization.ts:346 | the lookup finds an entry with the key, or reports -1 iff there is none (`Map.get`) |
| Tally.TallyKeys | src/utils/categorization.ts:346 | the tally holds one entry per key, in the order each key first occurs (a `Map` keeps insertion order), and a key is found iff some item has it |
| Tally.TallyEntries | src/utils/categorization.ts:358-364 | each entry carries the sum of its key's amounts and the first item's data (`existing.seconds += duration`, or a new entry) |
| Tally.TallyLookup | src/utils/categorization.ts:346 | a key's entry is missing iff no item has the key; otherwise its total is the sum of that key's amounts |
| Lists.FindIndex | src/utils/categorization.ts:25 | `findIndex`: -1 iff no element has the id; otherwise the first element with the id |
| Lists.Find | src/utils/categorization.ts:240 | `find`: nothing iff no element has the id; otherwise the first element with that id |
| Lists.UpsertWith | src/utils/categorization.ts:24-31 | with the id present the length is kept, the first element with the id becomes the combination of the old one and the new, and no other element changes; otherwise the element is appended |
| Lists.UpsertEach | src/hooks/useCategorySync.ts:502-511 | the `forEach` loop over the custom entries computes the overlay, one upsert per entry |
| Lists.OverlayShape | src/hooks/useCategorySync.ts:502-511 | with distinct ids on both sides, the overlay is the defaults patched in place by their custom counterparts, followed by the custom entries with new ids |
| Lists.UpsertKeepsDistinct | src/utils/categorization.ts:229-236 | an upsert keeps ids distinct and leaves the id present |
| Lists.SaveById | src/hooks/useCategorySync.ts:185-187 | every element with the id becomes the saved one and the others stay; the saved element is appended iff its id was absent |
| Lists.RemoveId | src/utils/categorization.ts:283 | `filter(r => r.id !== id)`: the id is gone, every remaining element was there, and every element with another id remains (order and repetitions: RemoveIdSplits) |
| Lists.RemoveIdSplits | src/utils/categorization.ts:283 | removing an id from a concatenation removes it from each part in turn, and a single element is kept iff its id differs, so order and repetitions of the kept elements are those of the list |
| Lists.RemoveAbsentId | src/utils/categorization.ts:283 | removing an absent id changes nothing |
| Lists.RemovePresentId | src/utils/categorization.ts:283 | with distinct ids, removing a present id shortens the list by one |
| Lists.RemoveIdSorted | src/utils/categorization.ts:283 | removing rules keeps the list ordered by priority |
| Lists.FlattenDistinct | src/types/categories.ts:185-281 | groups with distinct ids and pairwise incompatible id prefixes concatenate to a list with distinct ids |
| CategorySync.KeepCategoryFlag | src/hooks/useCategorySync.ts:507 | the custom category with the built-in flag of the one it overrides, and nothing else of the latter |
| CategorySync.KeepRuleFlag | src/hooks/useCategorySync.ts:524 | the custom rule with the built-in flag of the one it overrides |
| CategorySync.MergeCategories | src/hooks/useCategorySync.ts:501-515 | the overlay of the custom categories on the defaults, sorted (stably) by `order`, lowest first |
| CategorySync.MergeRules | src/hooks/useCategorySync.ts:518-532 | the overlay of the custom rules on the defaults, sorted (stably) by priority, highest first |
| CategorySync.MergedCategoriesContents | src/hooks/useCategorySync.ts:501-515 | the merged categories are exactly the patched defaults and the new custom ones, each order value keeping their relative order |
| CategorySync.MergedRulesContents | src/hooks/useCategorySync.ts:518-532 | the same for the rules and their priorities |
| CategorySync.PatchedKeepsFlag | src/hooks/useCategorySync.ts:505-507 | a patched default keeps its id and its built-in flag |
| CategorySync.SaveCategory | src/hooks/useCategorySync.ts:182-191 | rules untouched; the category is present afterwards; an existing id keeps the length and replaces the entries with that id; a new one is appended |
| CategorySync.SaveCategoryIdempotent | src/hooks/useCategorySync.ts:182-191 | saving the same category twice is saving it once |
| CategorySync.SaveRule | src/hooks/useCategorySync.ts:290-303 | categories untouched; the rules are the saved list re-sorted by priority (same elements), and the rule is present |
| CategorySync.SaveRuleInPlace | src/hooks/useCategorySync.ts:290-303 | saving a rule that keeps the priority of the one with its id, in an ordered list with distinct ids, replaces that rule in place |
| CategorySync.ReassignRules | src/hooks/useCategorySync.ts:248-250 | rules of the deleted category move to "uncategorized", the others stay |
| CategorySync.DeleteCategory | src/hooks/useCategorySync.ts:239-252 | fails with "Cannot delete default category", changing nothing, iff the category is missing or built in; otherwise it is removed, all other categories stay and its rules are reassigned |
| CategorySync.DeleteRule | src/hooks/useCategorySync.ts:351-362 | fails with "Cannot delete default rule", changing nothing, iff the rule is missing or built in; otherwise exactly the rules with that id are removed |
| CategorySync.ToggleRule | src/hooks/useCategorySync.ts:399-407 | fails with "Rule not found", changing nothing, iff the rule is missing; otherwise saves the first rule with the id with `isEnabled` flipped |
| CategorySync.ToggleRuleInPlace | src/hooks/useCategorySync.ts:399-407 | in an ordered list with distinct ids, a toggle flips that one rule in place |
| CategorySync.ToggleRuleTwice | src/hooks/useCategorySync.ts:399-407 | toggling a rule twice restores the state |
| CategorySync.StoredCategories | src/hooks/useCategorySync.ts:79 | local storage keeps exactly the categories that are not built in (order and repetitions: StoredCategoriesSplits) |
| CategorySync.StoredCategoriesSplits | src/hooks/useCategorySync.ts:79 | the stored categories of a concatenation are those of each part in turn, and a single category is stored iff it is not built in |
| CategorySync.StoredRules | src/hooks/useCategorySync.ts:80 | local storage keeps exactly the rules that are not built in (order and repetitions: StoredRulesSplits) |
| CategorySync.StoredRulesSplits | src/hooks/useCategorySync.ts:80 | the stored rules of a concatenation are those of each part in turn, and a single rule is stored iff it is not built in |
| Categories.DefaultCategoriesWellFormed | src/types/categories.ts:81-182 | the built-in categories have distinct ids, include "uncategorized", are all built in and score within 0..100 |
| Categories.DefaultRuleIdsDistinct | src/types/categories.ts:185-281 | the built-in rule ids are pairwise distinct |
| Categories.DefaultRulesWellFormed | src/types/categories.ts:185-281 | every built-in rule is built in and enabled, has priority 30..100, carries the pattern its type needs and names a built-in category |
| Categories.GroupCategoriesBuiltIn | src/types/categories.ts:81-182 | each rule group's category is a built-in category |
| DesktopRules.DefaultCategoriesKeyed | electron/tracker.js:4-76 | every built-in category is filed under its own id, "uncategorized" is one of them, and exactly entertainment and social media are not productive |
| DesktopRules.DefaultRulesBuiltIn | electron/tracker.js:78-160 | there are 61 built-in rules, none with an id or marked custom, each naming a built-in category other than "uncategorized", with priority 10 exactly for the research (browser) rules and no priority otherwise |
| DesktopRules.MatchRuleCases | electron/tracker.js:275-297 | exact tests equality with the lower-cased pattern, contains (and an unknown type) inclusion, startsWith and endsWith prefix and suffix, regex the engine's verdict, against the name or the title as the rule's type says |
| DesktopRules.PatternCaseIgnored | electron/tracker.js:276 | a rule matches as its lower-cased pattern does |
| DesktopRules.ExactIsStrongest | electron/tracker.js:281-288 | an exact match is also a contains, prefix and suffix match |
| DesktopRules.FirstMatchSpec | electron/tracker.js:238-243 | the first custom match matches and no earlier custom rule does; there is none iff no custom rule matches |
| DesktopRules.BestSpec | electron/tracker.js:247-262 | the kept default rule matches with the greatest priority (`priority \|\| 50`) of all matches, and strictly beats every earlier match; none is kept iff every match has a negative priority |
| DesktopRules.CategorizeConfidence | electron/tracker.js:233-273 | a categorisation is automatic; a matching custom rule gives its category at 90; otherwise the highest-priority default rule gives its category at min(90, 50 + priority); 90 iff a custom rule matched or the best priority is at least 40; 50 iff no rule matched |
| DesktopRules.CustomRuleWins | electron/tracker.js:238-243 | the first matching custom rule decides, with confidence 90, whatever the default rules say |
| DesktopRules.NothingMatches | electron/tracker.js:266-272 | without a match the result is "uncategorized" with confidence 50 |
| DesktopRules.BrowserOverridden | electron/tracker.js:155-160 | with the built-in rules, a browser rule never decides when a non-browser rule also matches, and the result then has confidence 90 |
| DesktopTitles.NormalizeTitleShape | electron/tracker.js:494-502 | a normalised title is lower-case, trimmed and single-spaced |
| DesktopTitles.TitleCountsIgnored | electron/tracker.js:497 | titles differing only in the digits of a "(n)" counter normalise alike |
| DesktopTitles.TitleClocksIgnored | electron/tracker.js:498 | titles differing only in an "H:MM", "HH:MM" or "HH:MM:SS" time normalise alike |
| DesktopTitles.CountAt | electron/tracker.js:497 | a match of `\(\d+\)` is a parenthesis, at least one digit and a closing parenthesis |
| DesktopTitles.ClockAt | electron/tracker.js:498 | a match of the clock pattern starts with a digit and lies within the text |
| DesktopTracker.Configured | electron/tracker.js:165-174 | a missing (or zero) threshold, minimum duration or poll interval takes 300, 10 and 1000; categorising is on unless turned off |
| DesktopTracker.Finalized | electron/tracker.js:561-577 | the end is stamped, the duration is the whole seconds since the start, and a non-empty manual category replaces the automatic one with confidence 100 |
| DesktopTracker.Counted | electron/tracker.js:579-598 | a long-enough activity counts once and its duration goes to the idle or the tracked total, and then to productive or distracting time when its category is known; a short one changes nothing |
| DesktopTracker.CountedAgrees | electron/tracker.js:579-598 | closing an activity keeps the counters equal to the sums over the reported activities |
| DesktopTracker.CountedBalanced | electron/tracker.js:587-596 | with a non-negative minimum, productive plus distracting time stays within the tracked time |
| DesktopTracker.ActivityTracker.constructor | electron/tracker.js:164-202 | the configured options, nothing tracked, counters at zero, the built-in categories and rules, no custom rules and no overrides |
| DesktopTracker.ActivityTracker.CategorizeActivity | electron/tracker.js:233-273 | the result of the two loops is the categorisation the rules define |
| DesktopTracker.ActivityTracker.FirstCustomMatch | electron/tracker.js:238-243 | the loop stops at the first matching custom rule |
| DesktopTracker.ActivityTracker.BestDefaultMatch | electron/tracker.js:245-262 | the loop keeps the rule the specification's scan keeps, with its priority |
| DesktopTracker.ActivityTracker.GetActivityCategory | electron/tracker.js:304-306 | the manual category iff one was set |
| DesktopTracker.ActivityTracker.SetActivityCategory | electron/tracker.js:300-302 | the override map gains the entry |
| DesktopTracker.ActivityTracker.AddCustomRule | electron/tracker.js:309-315 | the rule is appended, marked custom, with its own id or "custom-" and the clock |
| DesktopTracker.ActivityTracker.RemoveCustomRule | electron/tracker.js:317-319 | the custom rules are those without the id |
| DesktopTracker.ActivityTracker.SetCustomRules | electron/tracker.js:325-327 | the custom rules are the given ones marked custom |
| DesktopTracker.ActivityTracker.AddCategory | electron/tracker.js:334-336 | the category is filed under its id |
| DesktopTracker.ActivityTracker.FinalizeActivity | electron/tracker.js:561-601 | the open activity is closed, reported when long enough, and counted; the counters keep agreeing with the reports |
| DesktopTracker.ActivityTracker.CheckIdle | electron/tracker.js:511-543 | on reaching the threshold while not idle: idle, "idle started" reported, the open activity closed and an idle one opened from the last activity; otherwise nothing changes |
| DesktopTracker.ActivityTracker.Observe | electron/tracker.js:432-470 | a changed window closes the open activity and opens one categorised by the rules; a continued one has its duration brought up to date |
| DesktopTracker.ActivityTracker.Poll | electron/tracker.js:411-476 | nothing unless tracking and not paused; no window closes the open activity; otherwise, with the app and title defaulting to "Unknown" and "Untitled": when the idle threshold is newly reached, IdleStarted is reported, the open activity is closed and counted, and the idle "System" activity from the last activity time becomes the open one; then, against that open activity, a new app or a changed normalised title closes and counts it and opens a fresh activity with the new id and the automatic category, while the same window only brings its duration up to date; the last activity time becomes now |
| DesktopTracker.ActivityTracker.HandleUserActivity | electron/tracker.js:545-559 | leaving idleness closes an open idle activity and reports the whole seconds away; the last activity time is now |
| DesktopTracker.ActivityTracker.Start | electron/tracker.js:338-349 | a stopped tracker starts running unpaused and reports it; a running one is untouched |
| DesktopTracker.ActivityTracker.Pause | electron/tracker.js:351-364 | a running tracker pauses, closes the open activity and reports it; otherwise nothing changes |
| DesktopTracker.ActivityTracker.Resume | electron/tracker.js:366-375 | a paused tracker runs again and reports it; otherwise nothing changes |
| DesktopTracker.ActivityTracker.Stop | electron/tracker.js:377-391 | a tracker stops, closing the open activity and reporting it |
| DesktopTracker.ActivityTracker.HandleSuspend | electron/tracker.js:604-609 | the open activity is closed; a running, unpaused tracker pauses, stops polling and records a status change to paused; otherwise pause and polling are unchanged and only the close is recorded |
| DesktopTracker.ActivityTracker.HandleResume | electron/tracker.js:611-613 | a tracking, paused tracker unpauses, restarts polling and records a status change to running; otherwise nothing changes |
| DesktopTracker.ActivityTracker.HandleLock | electron/tracker.js:615-638 | the open activity is closed and an idle "Screen Locked" one opens |
| DesktopTracker.ActivityTracker.HandleUnlock | electron/tracker.js:640-645 | the open activity is closed and the user counts as active; an idle period that was running ends with an IdleEnded event carrying its length in seconds, otherwise only the close is recorded |
| DesktopTracker.ActivityTracker.GetStats | electron/tracker.js:659-668 | the counters, and a score that is 0 without tracked time and within 0..100 when the counters are balanced |
| DesktopTracker.ActivityTracker.UpdateSettings | electron/tracker.js:671-689 | each given setting replaces the current one, zero included |
| DesktopTracker.CustomRuleId | electron/tracker.js:312 | the rule's own non-empty id, or "custom-" followed by the clock |
| DesktopTracker.WithoutRule | electron/tracker.js:318 | exactly the rules whose id differs (order and repetitions: WithoutRuleSplits) |
| DesktopTracker.WithoutRuleSplits | electron/tracker.js:318 | deleting a rule from a concatenation deletes it from each part in turn, and a single rule is kept iff its id differs |
| DesktopTracker.WithoutRuleIdempotent | electron/tracker.js:318 | removing a rule twice is removing it once |
| DesktopTracker.AsCustom | electron/tracker.js:326 | each rule is kept, marked custom |
| DesktopTracker.CounterTickContinues | electron/tracker.js:478-492 | a title whose counter changed continues the open activity |
| DesktopTracker.ClockTickContinues | electron/tracker.js:478-492 | a title whose clock time changed continues the open activity |
| DesktopTracker.OtherAppStarts | electron/tracker.js:478-482 | another application, or no open activity, starts a new one |
| DesktopTracker.SameWindowContinues | electron/tracker.js:478-492 | the same application with a title that normalises alike does not start a new activity |
| TimeTracker.Uncoded | src/hooks/useTimeTracker.ts:502-506 | the activity loses its project, task and subtask and is no longer coded; nothing else changes |
| TimeTracker.CodeActivity | src/hooks/useTimeTracker.ts:478-482 | same length; the activities with the id are booked to the project, task and subtask and coded, all others unchanged |
| TimeTracker.UncodeActivity | src/hooks/useTimeTracker.ts:502-506 | same length; the activities with the id are uncoded, all others unchanged |
| TimeTracker.CodeThenUncode | src/hooks/useTimeTracker.ts:478-506 | uncoding after coding is the same as uncoding alone |
| TimeTracker.CodeTwice | src/hooks/useTimeTracker.ts:478-482 | coding twice is coding with the second booking |
| TimeTracker.BulkCodeActivities | src/hooks/useTimeTracker.ts:526-530 | same length; exactly the activities whose id is listed are booked and coded, all others unchanged |
| TimeTracker.BulkCodeSplit | src/hooks/useTimeTracker.ts:526-530 | booking two id lists at once is booking one after the other |
| TimeTracker.BulkCodeOne | src/hooks/useTimeTracker.ts:478-530 | bulk coding one id equals coding it with no subtask iff no activity with that id has a subtask (bulk coding keeps an existing subtask, coding replaces it) |
| TimeTracker.DeleteProject | src/hooks/useTimeTracker.ts:382-387 | the project is removed; exactly the activities with its id are uncoded, the others unchanged |
| TimeTracker.DeleteProjectForgets | src/hooks/useTimeTracker.ts:382-387 | afterwards no activity names the project and the activity ids are as before |
| TimeTracker.DeleteProjectIdempotent | src/hooks/useTimeTracker.ts:382-387 | deleting a project twice is deleting it once |
| TimeTracker.Untasked | src/hooks/useTimeTracker.ts:453-457 | the activity loses its task and subtask and is not coded, but keeps its project |
| TimeTracker.DeleteTask | src/hooks/useTimeTracker.ts:448-457 | the task is removed from that project only; exactly the activities with the task id lose the task |
| TimeTracker.DeleteTaskForgets | src/hooks/useTimeTracker.ts:448-457 | afterwards no activity names the task, each keeps its project, and the project ids are as before |
| TimeTracker.BulkDeleteActivities | src/hooks/useTimeTracker.ts:549-566 | an empty id list changes nothing; otherwise exactly the activities whose id is listed are removed (order: BulkDeleteSplits) |
| TimeTracker.DeleteActivity | src/hooks/useTimeTracker.ts:533-546 | deleting one activity is bulk deleting its id alone |
| TimeTracker.WithoutOne | src/hooks/useTimeTracker.ts:546 | the filter for one id removes exactly the elements with that id |
| TimeTracker.WithoutSplits | src/hooks/useTimeTracker.ts:549-566 | removing listed ids from a concatenation removes them from each part in turn, and a single activity is kept iff its id is not listed |
| TimeTracker.BulkDeleteSplits | src/hooks/useTimeTracker.ts:549-566 | bulk deletion from a concatenation is bulk deletion from each part in turn, and a single activity is kept iff its id is not listed |
| TimeTracker.BulkDeleteSnoc | src/hooks/useTimeTracker.ts:549-566 | deleting a list of ids and one more is deleting the list, then that id |
| TimeTracker.AddManualEntry | src/hooks/useTimeTracker.ts:569-627 | one activity is prepended: "Manual Entry", the description or "Manual time entry", ending now and lasting the duration, coded to the project and task, not idle |
| TimeTracker.ManualEntryRoundTrip | src/hooks/useTimeTracker.ts:569-627 | deleting a manual entry with a fresh id restores the list |
| TimeTracker.AddProject | src/hooks/useTimeTracker.ts:297-342 | one project is appended with the given fields, no tasks, not archived; without a colour it takes palette entry (number of projects mod 12) |
| TimeTracker.DefaultColorCycle | src/hooks/useTimeTracker.ts:298 | two default colours agree iff the project counts agree modulo 12 |
| TimeTracker.ColorsDistinct | src/hooks/useTimeTracker.ts:298 | the twelve palette colours are distinct |
| TimeTracker.DurationSplits | src/hooks/useTimeTracker.ts:750-759 | the durations of the activities that satisfy a test and of those that do not add up to the whole |
| TimeTracker.WhereSplits | src/hooks/useTimeTracker.ts:698-701 | a filter of a concatenation is the concatenation of the filters, and a single element is kept iff it passes the test |
| TimeTracker.Relevant | src/hooks/useTimeTracker.ts:698-701 | exactly the coded activities starting within [start, end] (order and repetitions: RelevantSplits) |
| TimeTracker.RelevantSplits | src/hooks/useTimeTracker.ts:698-701 | the coded activities within the range of a concatenation are those of each part in turn, and a single activity is kept iff it is coded and starts within [start, end] |
| TimeTracker.BookingOf | src/hooks/useTimeTracker.ts:708-721 | a booking exists iff the activity names a project and a task and the first project with that id has a task with that id; it then carries that first project and task, is keyed "project-task", with the duration and the day |
| TimeTracker.Bookings | src/hooks/useTimeTracker.ts:707-725 | every booking comes from an activity (completeness and order: BookingsSplits) |
| TimeTracker.BookingsSplits | src/hooks/useTimeTracker.ts:706-733 | the bookings of a concatenation are those of each part in turn, and a single activity gives exactly its own booking when it has one and none otherwise |
| TimeTracker.Blank | src/hooks/useTimeTracker.ts:718-721 | one zero entry per day, in the days' order |
| TimeTracker.GroupAllKeys | src/hooks/useTimeTracker.ts:712-723 | one group per key, and a key has a group iff some booking has it |
| TimeTracker.GroupAllEntries | src/hooks/useTimeTracker.ts:712-732 | each group carries its first booking's names and colour, the sum of its seconds, and each day's share of them |
| TimeTracker.Finish | src/hooks/useTimeTracker.ts:735-738 | each entry gets the rounded share of the total, 0 when there is no total |
| TimeTracker.DaysAreDayStarts | src/utils/timeUtils.ts:68-76 | the days the loop lists are the day starts from start to end |
| TimeTracker.BookInPlace | src/hooks/useTimeTracker.ts:712-732 | the loop body's dictionary update is one step of the grouping |
| TimeTracker.GenerateTimesheet | src/hooks/useTimeTracker.ts:694-741 | the entries are the finished groups of the relevant activities, sorted by seconds (most first, stable) and the same entries |
| TimeTracker.SortedReport | src/hooks/useTimeTracker.ts:740 | the report is sorted by total seconds, most first, is a permutation of the finished entries, and keeps the order of entries with equal totals |
| TimeTracker.GroupTotalsWithin | src/hooks/useTimeTracker.ts:712-732 | with no negative durations each entry's total lies between 0 and the seconds of all bookings |
| TimeTracker.BookedWithin | src/hooks/useTimeTracker.ts:700-715 | with non-negative durations, the booked seconds lie between 0 and the total |
| TimeTracker.TimesheetPercentages | src/hooks/useTimeTracker.ts:735-738 | with non-negative durations every percentage is within 0..100, and all are 0 when the total is 0 |
| TimeTracker.TodayActivities | src/hooks/useTimeTracker.ts:681-692 | exactly the activities starting today (order and repetitions: ReadOutsSplit) |
| TimeTracker.UncodedActivities | src/hooks/useTimeTracker.ts:676-679 | exactly the uncoded activities of the last 30 days (order and repetitions: ReadOutsSplit) |
| TimeTracker.ReadOutsSplit | src/hooks/useTimeTracker.ts:676-692 | today's and the uncoded read-outs of a concatenation are those of each part in turn; a single activity is kept iff it starts today, respectively iff it is uncoded and of the last 30 days |
| TimeTracker.CountActive | src/hooks/useTimeTracker.ts:762 | at most the number of projects; all of them iff none is archived, none iff all are (the count itself: CountActiveSplits) |
| TimeTracker.CountActiveSplits | src/hooks/useTimeTracker.ts:762 | the active count of a concatenation is the sum of the counts of the parts, and a single project counts 1 iff it is not archived |
| TimeTracker.Summary | src/hooks/useTimeTracker.ts:745-764 | today's total and coded time, uncoded = total - coded (which is the uncoded activities' time), the week's total over the activities of the last 7 days, the count and total time of the uncoded list, and the count of unarchived projects |
| TabTracker.CleanTitle | src/hooks/useTabTracker.ts:67-73 | the cleaned title is never empty |
| TabTracker.CleanTitleShape | src/hooks/useTabTracker.ts:67-73 | the cleaned title is "Untitled" or the trimmed front part of the title, with no white space at either end |
| TabTracker.NoSeparatorNoCut | src/hooks/useTabTracker.ts:69-70 | neither replacement cuts anything from a text without a dash, pipe or em dash |
| TabTracker.PlainTitle | src/hooks/useTabTracker.ts:67-73 | a title without separators is only trimmed, and an all-blank one becomes "Untitled" |
| TabTracker.PageAndSite | src/hooks/useTabTracker.ts:67-73 | "Page - Site" cleans to "Page" for every page segment and separator-free site |
| TabTracker.PageAndBrowser | src/hooks/useTabTracker.ts:67-73 | "Page - Firefox ..." cleans to "Page" for any suffix that starts, in any letter case, with Google Chrome, Firefox, Safari or Microsoft Edge |
| TabTracker.BrowserName | src/hooks/useTabTracker.ts:47-54 | a user agent mentioning Chrome is Chrome, and Edge is only named when neither Chrome nor Safari is mentioned |
| TabTracker.IndexFrom | src/hooks/useTabTracker.ts:61 | -1 iff the pattern occurs at no place from the start on; otherwise the first place at or after the start where it occurs |
| TabTracker.IndexFromNone | src/hooks/useTabTracker.ts:61 | without an occurrence from the start on, the search gives -1 |
| TabTracker.DomainDropsWww | src/hooks/useTabTracker.ts:57-64 | the domain of "www." + host is the host |
| TabTracker.DomainWithoutWww | src/hooks/useTabTracker.ts:57-64 | a host that does not contain "www." is its own domain |
| TabTracker.UpdatedIdempotent | src/hooks/useTabTracker.ts:391-393 | applying a settings update twice is applying it once, and an empty update changes nothing |
| TabTracker.SessionActivity | src/hooks/useTabTracker.ts:137-151 | the activity has the given id, the browser as application, the cleaned title and domain as window title, no project, task or subtask and is not coded; its duration is the elapsed whole seconds rounded down, it spans the session's start to now, and it is idle iff the caller or the session says so |
| TabTracker.CompleteCases | src/hooks/useTabTracker.ts:141-162 | an activity is dropped iff it is shorter than the minimum, merged iff long enough and the merge conditions hold, and logged unchanged otherwise |
| TabTracker.CompletePending | src/hooks/useTabTracker.ts:164-178 | a merge replaces only the last pending activity, keeping its id, title and start, ending it at the new end and adding the new duration and the gap; a logged activity is appended; a dropped one changes nothing; nothing reported is coded |
| TabTracker.MergedSpan | src/hooks/useTabTracker.ts:156-167 | a merged activity spans from the last one's start to the new end, and its duration is within two seconds below the span's whole seconds |
| TabTracker.CountedAgrees | src/hooks/useTabTracker.ts:180-185 | counting an outcome keeps sessionsToday, the idle total and the active total equal to the number and sums of what was counted |
| TabTracker.IdleSessionCountedActive | src/hooks/useTabTracker.ts:180-185 | an idle session completed without the idle flag is logged as idle yet its seconds go to the active total |
| TabTracker.TabTracker.constructor | src/hooks/useTabTracker.ts:79-120 | the settings are the defaults overridden by the stored ones, the pending list is the stored one, and the tracker starts not tracking with zero counters and no session |
| TabTracker.TabTracker.Decide | src/hooks/useTabTracker.ts:137-168 | the decision taken for the open session is the completion outcome of its activity |
| TabTracker.TabTracker.Record | src/hooks/useTabTracker.ts:164-185 | the pending list, the reported activities and the counters change as the outcome says, and the counters stay the sums of what was counted |
| TabTracker.TabTracker.CompleteSession | src/hooks/useTabTracker.ts:133-189 | without a session nothing changes; otherwise the session is closed and its outcome is applied to the pending list, the callback and the counters |
| TabTracker.TabTracker.StartSession | src/hooks/useTabTracker.ts:192-210 | a new active-or-hidden session on the current page opens, titled "Untitled" when the page has no title, and the state shows it as tracking |
| TabTracker.TabTracker.Restart | src/hooks/useTabTracker.ts:213-220 | completing then starting: the old session's outcome is applied and the new session is open |
| TabTracker.TabTracker.HandleTitleChange | src/hooks/useTabTracker.ts:213-220 | the session is completed and restarted exactly when the title differs from the last one and a session is open; otherwise nothing changes |
| TabTracker.TabTracker.HandleVisibilityChange | src/hooks/useTabTracker.ts:223-239 | nothing changes while tracking is off; hiding completes the session; showing opens a new session and ends idleness |
| TabTracker.TabTracker.HandleUserActivity | src/hooks/useTabTracker.ts:242-290 | while tracking: the activity time is noted, the idle timer is reset to now plus the time-out, and an idle open session is completed as idle and replaced by a fresh one; otherwise nothing changes |
| TabTracker.TabTracker.IdleTimeout | src/hooks/useTabTracker.ts:262-288 | nothing before the deadline; once fired the timer is spent, and with idle tracking and an open session that session is completed as active and an idle session opens |
| TabTracker.TabTracker.GoIdle | src/hooks/useTabTracker.ts:264-286 | the open session is completed as active, the tracker becomes idle from now and an "Idle" session opens |
| TabTracker.TabTracker.ForceCompleteSession | src/hooks/useTabTracker.ts:408-413 | an open session is completed and a new one opens; without one nothing changes |
| TabTracker.TabTracker.ClearPendingActivities | src/hooks/useTabTracker.ts:396-399 | the pending list is empty |
| TabTracker.TabTracker.UpdateSettings | src/hooks/useTabTracker.ts:391-393 | the given fields replace the current settings and the others stay |
| TabTracker.TabTracker.CurrentSessionDuration | src/hooks/useTabTracker.ts:402-405 | 0 without a session, otherwise the whole seconds elapsed since it began |
| TabTracker.TabTracker.RecoverySnapshot | src/hooks/useTabTracker.ts:361-384 | the saved list is the pending list with the session's activity appended iff a session is open and long enough; that activity has the new id, the browser name, the cleaned title and domain, the session's start and the elapsed whole seconds, is not coded, is idle iff the session is, and ends now |
| TabTracker.TabTracker.SnapshotVersusCompletion | src/hooks/useTabTracker.ts:361-384 | the saved list equals what completion would leave when it logs or drops, and is one longer when completion would merge |

## Left out

- Supabase reads and writes, localStorage and `migrateLocalDataToDatabase` are remote or persistent I/O. Only the local state transitions are modelled. Stored settings and pending activities are constructor arguments.
- The Electron shell (electron/main.js, preload.js, updater.js) and every React component are OS plumbing or UI, not part of the core.
- Loading `active-win` and the polling and idle timers of electron/tracker.js are not modelled. Each `Poll` step takes the sample and `now` as arguments, and a sample that cannot be read is one of its cases.
- `Start`, `Resume` and `UpdateSettings` (when the poll interval changes) on the desktop tracker do not take the first sample itself. The next `Poll` step models the immediate poll that `startPolling` makes.
- Overlapping asynchronous polls are not modelled. `poll` awaits `active-win`, so a slow sample could interleave with the next timer tick or an event handler; each `Poll` step here runs to completion before the next step.
- Categorization.MatchPattern: the contains confidence divides the lengths as sequences of Unicode scalar values, while JavaScript's `length` counts UTF-16 code units, so for text or patterns with characters outside the Basic Multilingual Plane the score differs.
- Aliasing between rule and categorisation objects is not modelled. The engine's rule list is a shallow copy of `DEFAULT_RULES`, so `toggleRule` (Categorization.CategorizationEngine.ToggleRule) flips `isEnabled` on an object shared with the default table and with other engines. `deleteCategory` (Categorization.CategorizationEngine.DeleteCategory) changes the stored categorisation objects in place, so a result returned earlier changes too. The model keeps rules and categorisations as values in the engine's own state, so only that state changes.
- `saveSettings` in src/hooks/useCategorySync.ts (local settings state, its storage and its upload) is not modelled: the hook only holds, stores and uploads the settings object and no modelled operation reads it, so the sync state holds only categories and rules.
- Productivity.ProductivityScore: when the categorized time is 0 but the productive time is not (which takes negative durations, as in 5 s productive, -5 s distracting and 10 s uncategorized), the source divides a non-zero number by 0 and returns +Infinity or -Infinity; the model's score is an integer and gives 0 there.
- The duration formatters (TimeUtils.FormatDuration, FormatDurationClock, FormatDurationLong, and Categorization.FormatDuration for categorization.ts:494-502) take a `nat`. A negative duration, which the source would format with negative parts, is outside the model.
- In the tab tracker, `setTimeout`, the one-second title poll, the MutationObserver, DOM event wiring and mount and unmount effects are not modelled. They are replaced by step methods that take the time, the page title, the URL and the visibility.
- React stale closures and batched state updates are not modelled. Every step sees the current state and settings. The idle timer reads the settings in force when it fires.
- Dates are millisecond integers and ISO strings are not produced. `new Date()` is the `now` argument. Calendar-day keys (`toISOString` and locale dates) and `getHours` are given functions on time stamps, and `getDaysBetween` steps by exactly 86 400 000 ms.
- The regular-expression engine is an abstract function from pattern and text to a match or an invalid-pattern error. The patterns that the title cleaning and normalisation use are written out as scanners.
- `new URL(url).hostname` is a given function that yields nothing where the constructor throws.
- `generateId`, `uuidv4` and `Math.random` are modelled as fresh ids passed in as arguments.
- Lower-casing is ASCII only. The built-in patterns and browser names are ASCII.
- `secondsToHours`, `toFixed` and other display formatting are floating-point presentation and are not modelled. Percentages and confidences are exact reals, rounded the way `Math.round` rounds.
- Numeric settings (time-outs, minimum durations, merge thresholds, poll intervals) are integers.
- TabTracker.TabTracker.IsTracking: a plain conjunction of three flags, with no contract of its own.
- The desktop tracker's getters `getCurrentActivity`, `getCategories` and `getCustomRules` only return fields and are not modelled.
- `updateProject`, `addTask` and `addAutoTrackedActivity` in src/hooks/useTimeTracker.ts are not modelled.
- The `getCategorizationEngine` singleton, sample data and `getDownloadUrl` are not part of the core.
