/** The categories and rules of the desktop tracker (electron/tracker.js)
    and its categorisation: custom rules first, in order, then the default
    rule of greatest priority. */
module DesktopRules {
  import opened Text

  datatype DesktopCategory = DesktopCategory(
    id: string,
    name: string,
    color: string,
    isProductivity: bool,
    productivityScore: int)

  /** `type: 'app'` tests the application name; any other type tests the title. */
  datatype Target = App | Title

  /** The `matchType` of a rule; `Unknown` stands for any other value. */
  datatype MatchKind = Exact | Contains | StartsWith | EndsWith | Regex | Unknown

  datatype DesktopRule = DesktopRule(
    id: Option<string>,
    categoryId: string,
    target: Target,
    pattern: string,
    matchType: MatchKind,
    priority: Option<int>,
    isCustom: bool)

  datatype Categorization = Categorization(categoryId: string, autoAssigned: bool, confidence: int)

  const UNCATEGORIZED: string := "uncategorized"

  function Cat(id: string, name: string, color: string, isProductivity: bool, score: int): DesktopCategory {
    DesktopCategory(id, name, color, isProductivity, score)
  }

  const DEFAULT_CATEGORIES: map<string, DesktopCategory> := map[
    "development" := Cat("development", "Development", "#3B82F6", true, 100),
    "communication" := Cat("communication", "Communication", "#8B5CF6", true, 70),
    "design" := Cat("design", "Design", "#EC4899", true, 100),
    "meetings" := Cat("meetings", "Meetings", "#F59E0B", true, 60),
    "documentation" := Cat("documentation", "Documentation", "#10B981", true, 90),
    "research" := Cat("research", "Research", "#06B6D4", true, 80),
    "entertainment" := Cat("entertainment", "Entertainment", "#EF4444", false, 10),
    "social-media" := Cat("social-media", "Social Media", "#F97316", false, 15),
    "utilities" := Cat("utilities", "Utilities", "#6B7280", true, 50),
    "uncategorized" := Cat("uncategorized", "Uncategorized", "#9CA3AF", true, 50)
  ]

  function AppRule(categoryId: string, pattern: string): DesktopRule {
    DesktopRule(None, categoryId, App, pattern, Contains, None, false)
  }

  function TitleRule(categoryId: string, pattern: string): DesktopRule {
    DesktopRule(None, categoryId, Title, pattern, Contains, None, false)
  }

  const DevelopmentRules: seq<DesktopRule> := [
    AppRule("development", "Visual Studio Code"), AppRule("development", "Code"),
    AppRule("development", "IntelliJ"), AppRule("development", "WebStorm"),
    AppRule("development", "PyCharm"), AppRule("development", "Sublime Text"),
    AppRule("development", "Xcode"), AppRule("development", "Android Studio"),
    AppRule("development", "Terminal"), AppRule("development", "iTerm"),
    AppRule("development", "cmd.exe"), AppRule("development", "PowerShell"),
    AppRule("development", "Cursor"), TitleRule("development", "GitHub"),
    TitleRule("development", "GitLab"), TitleRule("development", "Stack Overflow")
  ]

  const CommunicationRules: seq<DesktopRule> := [
    AppRule("communication", "Slack"), AppRule("communication", "Microsoft Teams"),
    AppRule("communication", "Discord"), AppRule("communication", "Outlook"),
    TitleRule("communication", "Gmail"), AppRule("communication", "Mail"),
    AppRule("communication", "Telegram")
  ]

  const DesignRules: seq<DesktopRule> := [
    AppRule("design", "Figma"), TitleRule("design", "Figma"), AppRule("design", "Sketch"),
    AppRule("design", "Photoshop"), AppRule("design", "Illustrator"),
    AppRule("design", "Adobe XD"), TitleRule("design", "Canva")
  ]

  const MeetingRules: seq<DesktopRule> := [
    AppRule("meetings", "zoom"), TitleRule("meetings", "Google Meet"), AppRule("meetings", "Webex"),
    AppRule("meetings", "Skype"), AppRule("meetings", "FaceTime")
  ]

  const DocumentationRules: seq<DesktopRule> := [
    AppRule("documentation", "Notion"), TitleRule("documentation", "Notion"),
    TitleRule("documentation", "Confluence"), TitleRule("documentation", "Google Docs"),
    AppRule("documentation", "Microsoft Word"), AppRule("documentation", "Obsidian")
  ]

  const EntertainmentRules: seq<DesktopRule> := [
    TitleRule("entertainment", "YouTube"), TitleRule("entertainment", "Netflix"),
    AppRule("entertainment", "Spotify"), TitleRule("entertainment", "Twitch"),
    TitleRule("entertainment", "Prime Video")
  ]

  const SocialMediaRules: seq<DesktopRule> := [
    TitleRule("social-media", "Twitter"), TitleRule("social-media", "/ X"),
    TitleRule("social-media", "Facebook"), TitleRule("social-media", "Instagram"),
    TitleRule("social-media", "LinkedIn"), TitleRule("social-media", "Reddit"),
    TitleRule("social-media", "TikTok")
  ]

  const UtilityRules: seq<DesktopRule> := [
    DesktopRule(None, "utilities", App, "Finder", Exact, None, false),
    AppRule("utilities", "Explorer"), AppRule("utilities", "Settings")
  ]

  function BrowserRule(pattern: string): DesktopRule {
    DesktopRule(None, "research", App, pattern, Contains, Some(10), false)
  }

  /** The browsers: low priority, so that any title rule overrides them. */
  const ResearchRules: seq<DesktopRule> := [
    BrowserRule("Google Chrome"), BrowserRule("Firefox"), BrowserRule("Safari"),
    BrowserRule("Microsoft Edge"), BrowserRule("Brave")
  ]

  const DEFAULT_RULES: seq<DesktopRule> :=
    DevelopmentRules + CommunicationRules + DesignRules + MeetingRules + DocumentationRules
    + EntertainmentRules + SocialMediaRules + UtilityRules + ResearchRules

  // ---------------------------------------------------------------------
  // Shape of the built-in data

  /** Every category is filed under its own id. */
  lemma DefaultCategoriesKeyed()
    ensures forall k :: k in DEFAULT_CATEGORIES ==> DEFAULT_CATEGORIES[k].id == k
    ensures UNCATEGORIZED in DEFAULT_CATEGORIES
    ensures forall k :: k in DEFAULT_CATEGORIES ==>
      (!DEFAULT_CATEGORIES[k].isProductivity <==> k == "entertainment" || k == "social-media")
  {
  }

  /** A built-in rule: not custom, without an id, filed under a known
      category, and of priority 50 unless it is a browser rule of
      priority 10 in `research`. */
  predicate BuiltIn(r: DesktopRule) {
    && r.id.None?
    && !r.isCustom
    && r.categoryId in DEFAULT_CATEGORIES
    && r.categoryId != UNCATEGORIZED
    && (r.categoryId == "research" <==> r.priority == Some(10))
    && (r.priority.None? || r.priority == Some(10))
    && (r.matchType == Contains || r.matchType == Exact)
  }

  lemma DevelopmentRulesBuiltIn()
    ensures forall r :: r in DevelopmentRules ==> BuiltIn(r)
  {
  }

  lemma CommunicationRulesBuiltIn()
    ensures forall r :: r in CommunicationRules ==> BuiltIn(r)
  {
  }

  lemma DesignRulesBuiltIn()
    ensures forall r :: r in DesignRules ==> BuiltIn(r)
  {
  }

  lemma MeetingRulesBuiltIn()
    ensures forall r :: r in MeetingRules ==> BuiltIn(r)
  {
  }

  lemma DocumentationRulesBuiltIn()
    ensures forall r :: r in DocumentationRules ==> BuiltIn(r)
  {
  }

  lemma EntertainmentRulesBuiltIn()
    ensures forall r :: r in EntertainmentRules ==> BuiltIn(r)
  {
  }

  lemma SocialMediaRulesBuiltIn()
    ensures forall r :: r in SocialMediaRules ==> BuiltIn(r)
  {
  }

  lemma UtilityRulesBuiltIn()
    ensures forall r :: r in UtilityRules ==> BuiltIn(r)
  {
  }

  lemma ResearchRulesBuiltIn()
    ensures forall r :: r in ResearchRules ==> BuiltIn(r)
  {
  }

  lemma DefaultRulesBuiltIn()
    ensures |DEFAULT_RULES| == 61
    ensures forall r :: r in DEFAULT_RULES ==> BuiltIn(r)
  {
    DevelopmentRulesBuiltIn();
    CommunicationRulesBuiltIn();
    DesignRulesBuiltIn();
    MeetingRulesBuiltIn();
    DocumentationRulesBuiltIn();
    EntertainmentRulesBuiltIn();
    SocialMediaRulesBuiltIn();
    UtilityRulesBuiltIn();
    ResearchRulesBuiltIn();
    var s := DEFAULT_RULES;
    assert s == (DevelopmentRules + CommunicationRules + DesignRules)
      + (MeetingRules + DocumentationRules + EntertainmentRules)
      + (SocialMediaRules + UtilityRules + ResearchRules);
  }

  // ---------------------------------------------------------------------
  // matchRule

  function TargetOf(rule: DesktopRule, appLower: string, titleLower: string): string {
    if rule.target == App then appLower else titleLower
  }

  /** A rule against an application name and a window title that the caller
      has lower-cased; the pattern is lower-cased here. An unknown match
      type tests containment, and an invalid regular expression matches
      nothing. */
  function MatchRule(rule: DesktopRule, appLower: string, titleLower: string, re: RegexEngine): bool
  {
    var pattern := Lower(rule.pattern);
    var target := TargetOf(rule, appLower, titleLower);
    match rule.matchType
    case Exact => target == pattern
    case Contains => Includes(target, pattern)
    case StartsWith => HasPrefix(target, pattern)
    case EndsWith => HasSuffix(target, pattern)
    case Regex => RegexTest(re, pattern, target)
    case Unknown => Includes(target, pattern)
  }

  /** What each match type tests. */
  lemma MatchRuleCases(rule: DesktopRule, appLower: string, titleLower: string, re: RegexEngine)
    ensures var r, t, p := MatchRule(rule, appLower, titleLower, re), TargetOf(rule, appLower, titleLower), Lower(rule.pattern);
      && (rule.matchType == Exact ==> (r <==> t == p))
      && (rule.matchType in {Contains, Unknown} ==> (r <==> Includes(t, p)))
      && (rule.matchType == StartsWith ==> (r <==> HasPrefix(t, p)))
      && (rule.matchType == EndsWith ==> (r <==> HasSuffix(t, p)))
      && (rule.matchType == Regex ==> (r <==> re(p, t) == Decided(true)))
  {
  }

  /** The case of a pattern does not matter. */
  lemma PatternCaseIgnored(rule: DesktopRule, appLower: string, titleLower: string, re: RegexEngine)
    ensures MatchRule(rule, appLower, titleLower, re) == MatchRule(rule.(pattern := Lower(rule.pattern)), appLower, titleLower, re)
  {
    LowerIdempotent(rule.pattern);
  }

  /** An exact match is also a containment, prefix and suffix match. */
  lemma ExactIsStrongest(rule: DesktopRule, appLower: string, titleLower: string, re: RegexEngine, kind: MatchKind)
    requires rule.matchType == Exact && MatchRule(rule, appLower, titleLower, re)
    requires kind in {Contains, StartsWith, EndsWith, Unknown}
    ensures MatchRule(rule.(matchType := kind), appLower, titleLower, re)
  {
    var t := TargetOf(rule, appLower, titleLower);
    assert OccursAt(t, t, 0);
  }

  // ---------------------------------------------------------------------
  // categorizeActivity

  /** `rule.priority || 50`. */
  function Priority(rule: DesktopRule): int {
    OrDefault(rule.priority, 50)
  }

  /** The first rule that matches. */
  function FirstMatch(rules: seq<DesktopRule>, appLower: string, titleLower: string, re: RegexEngine): (r: Option<nat>)
    ensures r.Some? ==> r.value < |rules|
  {
    if rules == [] then None
    else if MatchRule(rules[0], appLower, titleLower, re) then Some(0)
    else
      match FirstMatch(rules[1..], appLower, titleLower, re)
      case None => None
      case Some(k) => Some(k + 1)
  }

  /** The first match matches and no rule before it does; there is none
      when no rule matches. */
  lemma {:induction false} FirstMatchSpec(rules: seq<DesktopRule>, appLower: string, titleLower: string, re: RegexEngine)
    ensures var r := FirstMatch(rules, appLower, titleLower, re);
      && (r.Some? ==> MatchRule(rules[r.value], appLower, titleLower, re))
      && (r.Some? ==> forall j :: 0 <= j < r.value ==> !MatchRule(rules[j], appLower, titleLower, re))
      && (r.None? ==> forall j :: 0 <= j < |rules| ==> !MatchRule(rules[j], appLower, titleLower, re))
  {
    if rules != [] && !MatchRule(rules[0], appLower, titleLower, re) {
      FirstMatchSpec(rules[1..], appLower, titleLower, re);
      assert forall j :: 0 < j < |rules| ==> rules[j] == rules[1..][j - 1];
    }
  }

  /** The first match is the index where the scan in order stops: every
      earlier rule fails and that one matches, or the scan runs off the end. */
  lemma FirstMatchAt(rules: seq<DesktopRule>, appLower: string, titleLower: string, re: RegexEngine, i: nat)
    requires i <= |rules|
    requires forall j :: 0 <= j < i ==> !MatchRule(rules[j], appLower, titleLower, re)
    requires i < |rules| ==> MatchRule(rules[i], appLower, titleLower, re)
    ensures FirstMatch(rules, appLower, titleLower, re) == if i < |rules| then Some(i) else None
  {
    FirstMatchSpec(rules, appLower, titleLower, re);
  }

  /** The rule the scan over `rules` keeps: a match whose priority beats
      the best so far, which starts at -1. It is the earliest matching rule
      of greatest priority, and there is none when every matching rule has
      a negative priority. */
  function Best(rules: seq<DesktopRule>, appLower: string, titleLower: string, re: RegexEngine): (r: Option<nat>)
    ensures r.Some? ==> r.value < |rules|
  {
    if rules == [] then None
    else
      var init := rules[..|rules| - 1];
      var last := rules[|rules| - 1];
      var b := Best(init, appLower, titleLower, re);
      var bestPriority := if b.Some? then Priority(init[b.value]) else -1;
      if MatchRule(last, appLower, titleLower, re) && Priority(last) > bestPriority then Some(|rules| - 1) else b
  }

  /** The rule the scan keeps matches with a non-negative priority that no
      matching rule exceeds and that every earlier matching rule falls
      short of; when it keeps none, every matching rule has a negative
      priority. */
  lemma {:induction false} BestSpec(rules: seq<DesktopRule>, appLower: string, titleLower: string, re: RegexEngine)
    ensures var r := Best(rules, appLower, titleLower, re);
      && (r.Some? ==> MatchRule(rules[r.value], appLower, titleLower, re) && Priority(rules[r.value]) >= 0)
      && (r.Some? ==> forall j :: 0 <= j < |rules| && MatchRule(rules[j], appLower, titleLower, re) ==>
            Priority(rules[j]) <= Priority(rules[r.value]))
      && (r.Some? ==> forall j :: 0 <= j < r.value && MatchRule(rules[j], appLower, titleLower, re) ==>
            Priority(rules[j]) < Priority(rules[r.value]))
      && (r.None? ==> forall j :: 0 <= j < |rules| && MatchRule(rules[j], appLower, titleLower, re) ==>
            Priority(rules[j]) < 0)
  {
    if rules != [] {
      var init := rules[..|rules| - 1];
      BestSpec(init, appLower, titleLower, re);
      assert forall j :: 0 <= j < |init| ==> init[j] == rules[j];
    }
  }

  /** What `categorizeActivity` returns for an application and a title. */
  function Categorize(customRules: seq<DesktopRule>, rules: seq<DesktopRule>, appName: string, windowTitle: string,
                      re: RegexEngine): Categorization
  {
    var appLower, titleLower := Lower(appName), Lower(windowTitle);
    match FirstMatch(customRules, appLower, titleLower, re)
    case Some(k) => Categorization(customRules[k].categoryId, true, 90)
    case None =>
      match Best(rules, appLower, titleLower, re)
      case Some(k) =>
        var p := Priority(rules[k]);
        Categorization(rules[k].categoryId, true, if 50 + p < 90 then 50 + p else 90)
      case None => Categorization(UNCATEGORIZED, true, 50)
  }

  /** Automatic, with confidence 50 to 90. A custom rule gives 90; a
      default rule gives 50 plus its priority, capped at 90, so 90 exactly
      when a custom rule or a default rule of priority 40 or more decided;
      50 exactly when no rule decided, since `priority || 50` is never 0
      and the kept priority is not negative. */
  lemma CategorizeConfidence(customRules: seq<DesktopRule>, rules: seq<DesktopRule>, appName: string, windowTitle: string,
                             re: RegexEngine)
    ensures var c := Categorize(customRules, rules, appName, windowTitle, re);
      var first := FirstMatch(customRules, Lower(appName), Lower(windowTitle), re);
      var best := Best(rules, Lower(appName), Lower(windowTitle), re);
      && c.autoAssigned && 50 <= c.confidence <= 90
      && (first.Some? ==> c.categoryId == customRules[first.value].categoryId && c.confidence == 90)
      && (first.None? && best.Some? ==>
            var p := Priority(rules[best.value]);
            && c.categoryId == rules[best.value].categoryId
            && c.confidence <= 90 && c.confidence <= 50 + p && (c.confidence == 90 || c.confidence == 50 + p))
      && (c.confidence == 90 <==> first.Some? || (best.Some? && Priority(rules[best.value]) >= 40))
      && (c.confidence == 50 <==> first.None? && best.None?)
  {
    BestSpec(rules, Lower(appName), Lower(windowTitle), re);
  }

  /** The first matching custom rule decides, whatever the other rules say. */
  lemma CustomRuleWins(customRules: seq<DesktopRule>, rules: seq<DesktopRule>, appName: string, windowTitle: string,
                       re: RegexEngine, k: nat)
    requires k < |customRules| && MatchRule(customRules[k], Lower(appName), Lower(windowTitle), re)
    requires forall j :: 0 <= j < k ==> !MatchRule(customRules[j], Lower(appName), Lower(windowTitle), re)
    ensures Categorize(customRules, rules, appName, windowTitle, re) == Categorization(customRules[k].categoryId, true, 90)
  {
    FirstMatchAt(customRules, Lower(appName), Lower(windowTitle), re, k);
  }

  /** Without any matching rule of non-negative priority, the result is
      `uncategorized` with confidence 50. */
  lemma NothingMatches(customRules: seq<DesktopRule>, rules: seq<DesktopRule>, appName: string, windowTitle: string,
                       re: RegexEngine)
    requires forall j :: 0 <= j < |customRules| ==> !MatchRule(customRules[j], Lower(appName), Lower(windowTitle), re)
    requires forall j :: 0 <= j < |rules| ==> !MatchRule(rules[j], Lower(appName), Lower(windowTitle), re)
    ensures Categorize(customRules, rules, appName, windowTitle, re) == Categorization(UNCATEGORIZED, true, 50)
  {
    FirstMatchSpec(customRules, Lower(appName), Lower(windowTitle), re);
    BestSpec(rules, Lower(appName), Lower(windowTitle), re);
  }

  /** With the built-in rules, a browser never decides when another rule
      matches too: a title rule such as "GitHub" wins over "Google Chrome",
      with confidence 90. */
  lemma BrowserOverridden(customRules: seq<DesktopRule>, appName: string, windowTitle: string, re: RegexEngine, j: nat)
    requires forall i :: 0 <= i < |customRules| ==> !MatchRule(customRules[i], Lower(appName), Lower(windowTitle), re)
    requires j < |DEFAULT_RULES| && DEFAULT_RULES[j].categoryId != "research"
    requires MatchRule(DEFAULT_RULES[j], Lower(appName), Lower(windowTitle), re)
    ensures Categorize(customRules, DEFAULT_RULES, appName, windowTitle, re).categoryId != "research"
    ensures Categorize(customRules, DEFAULT_RULES, appName, windowTitle, re).confidence == 90
  {
    DefaultRulesBuiltIn();
    assert DEFAULT_RULES[j] in DEFAULT_RULES;
    FirstMatchSpec(customRules, Lower(appName), Lower(windowTitle), re);
    BestSpec(DEFAULT_RULES, Lower(appName), Lower(windowTitle), re);
    var b := Best(DEFAULT_RULES, Lower(appName), Lower(windowTitle), re);
    assert Priority(DEFAULT_RULES[j]) == 50;
    assert DEFAULT_RULES[b.value] in DEFAULT_RULES;
  }
}
