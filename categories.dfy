/** The ids of the built-in development rules, the largest group, kept
    apart so that their distinctness is checked on the strings alone, a few
    rows at a time. */
module BuiltInRuleIds {
  const DevelopmentRuleIds: seq<string> := ["dev-vscode", "dev-vscode2", "dev-intellij", "dev-webstorm", "dev-pycharm", "dev-sublime", "dev-atom", "dev-xcode", "dev-android", "dev-terminal", "dev-iterm", "dev-cmd", "dev-powershell", "dev-github-title", "dev-gitlab-title", "dev-bitbucket-title", "dev-stackoverflow", "dev-vim", "dev-neovim", "dev-cursor"]

  lemma DevelopmentIdsDistinctFrom0()
    ensures forall i, j :: 0 <= i < 2 && i < j < |DevelopmentRuleIds| ==> DevelopmentRuleIds[i] != DevelopmentRuleIds[j]
  {
    assert "dev-vscode" !in ["dev-vscode2", "dev-intellij", "dev-webstorm", "dev-pycharm", "dev-sublime", "dev-atom", "dev-xcode", "dev-android", "dev-terminal", "dev-iterm", "dev-cmd", "dev-powershell", "dev-github-title", "dev-gitlab-title", "dev-bitbucket-title", "dev-stackoverflow", "dev-vim", "dev-neovim", "dev-cursor"];
    assert "dev-vscode2" !in ["dev-intellij", "dev-webstorm", "dev-pycharm", "dev-sublime", "dev-atom", "dev-xcode", "dev-android", "dev-terminal", "dev-iterm", "dev-cmd", "dev-powershell", "dev-github-title", "dev-gitlab-title", "dev-bitbucket-title", "dev-stackoverflow", "dev-vim", "dev-neovim", "dev-cursor"];
  }

  lemma DevelopmentIdsDistinctFrom2()
    ensures forall i, j :: 2 <= i < 4 && i < j < |DevelopmentRuleIds| ==> DevelopmentRuleIds[i] != DevelopmentRuleIds[j]
  {
    assert "dev-intellij" !in ["dev-webstorm", "dev-pycharm", "dev-sublime", "dev-atom", "dev-xcode", "dev-android", "dev-terminal", "dev-iterm", "dev-cmd", "dev-powershell", "dev-github-title", "dev-gitlab-title", "dev-bitbucket-title", "dev-stackoverflow", "dev-vim", "dev-neovim", "dev-cursor"];
    assert "dev-webstorm" !in ["dev-pycharm", "dev-sublime", "dev-atom", "dev-xcode", "dev-android", "dev-terminal", "dev-iterm", "dev-cmd", "dev-powershell", "dev-github-title", "dev-gitlab-title", "dev-bitbucket-title", "dev-stackoverflow", "dev-vim", "dev-neovim", "dev-cursor"];
  }

  lemma DevelopmentIdsDistinctFrom4()
    ensures forall i, j :: 4 <= i < 6 && i < j < |DevelopmentRuleIds| ==> DevelopmentRuleIds[i] != DevelopmentRuleIds[j]
  {
    assert "dev-pycharm" !in ["dev-sublime", "dev-atom", "dev-xcode", "dev-android", "dev-terminal", "dev-iterm", "dev-cmd", "dev-powershell", "dev-github-title", "dev-gitlab-title", "dev-bitbucket-title", "dev-stackoverflow", "dev-vim", "dev-neovim", "dev-cursor"];
    assert "dev-sublime" !in ["dev-atom", "dev-xcode", "dev-android", "dev-terminal", "dev-iterm", "dev-cmd", "dev-powershell", "dev-github-title", "dev-gitlab-title", "dev-bitbucket-title", "dev-stackoverflow", "dev-vim", "dev-neovim", "dev-cursor"];
  }

  lemma DevelopmentIdsDistinctFrom6()
    ensures forall i, j :: 6 <= i < 9 && i < j < |DevelopmentRuleIds| ==> DevelopmentRuleIds[i] != DevelopmentRuleIds[j]
  {
    assert "dev-atom" !in ["dev-xcode", "dev-android", "dev-terminal", "dev-iterm", "dev-cmd", "dev-powershell", "dev-github-title", "dev-gitlab-title", "dev-bitbucket-title", "dev-stackoverflow", "dev-vim", "dev-neovim", "dev-cursor"];
    assert "dev-xcode" !in ["dev-android", "dev-terminal", "dev-iterm", "dev-cmd", "dev-powershell", "dev-github-title", "dev-gitlab-title", "dev-bitbucket-title", "dev-stackoverflow", "dev-vim", "dev-neovim", "dev-cursor"];
    assert "dev-android" !in ["dev-terminal", "dev-iterm", "dev-cmd", "dev-powershell", "dev-github-title", "dev-gitlab-title", "dev-bitbucket-title", "dev-stackoverflow", "dev-vim", "dev-neovim", "dev-cursor"];
  }

  lemma DevelopmentIdsDistinctFrom9()
    ensures forall i, j :: 9 <= i < 14 && i < j < |DevelopmentRuleIds| ==> DevelopmentRuleIds[i] != DevelopmentRuleIds[j]
  {
    assert "dev-terminal" !in ["dev-iterm", "dev-cmd", "dev-powershell", "dev-github-title", "dev-gitlab-title", "dev-bitbucket-title", "dev-stackoverflow", "dev-vim", "dev-neovim", "dev-cursor"];
    assert "dev-iterm" !in ["dev-cmd", "dev-powershell", "dev-github-title", "dev-gitlab-title", "dev-bitbucket-title", "dev-stackoverflow", "dev-vim", "dev-neovim", "dev-cursor"];
    assert "dev-cmd" !in ["dev-powershell", "dev-github-title", "dev-gitlab-title", "dev-bitbucket-title", "dev-stackoverflow", "dev-vim", "dev-neovim", "dev-cursor"];
    assert "dev-powershell" !in ["dev-github-title", "dev-gitlab-title", "dev-bitbucket-title", "dev-stackoverflow", "dev-vim", "dev-neovim", "dev-cursor"];
    assert "dev-github-title" !in ["dev-gitlab-title", "dev-bitbucket-title", "dev-stackoverflow", "dev-vim", "dev-neovim", "dev-cursor"];
  }

  lemma DevelopmentIdsDistinctFrom14()
    ensures forall i, j :: 14 <= i < 19 && i < j < |DevelopmentRuleIds| ==> DevelopmentRuleIds[i] != DevelopmentRuleIds[j]
  {
    assert "dev-gitlab-title" !in ["dev-bitbucket-title", "dev-stackoverflow", "dev-vim", "dev-neovim", "dev-cursor"];
    assert "dev-bitbucket-title" !in ["dev-stackoverflow", "dev-vim", "dev-neovim", "dev-cursor"];
    assert "dev-stackoverflow" !in ["dev-vim", "dev-neovim", "dev-cursor"];
    assert "dev-vim" !in ["dev-neovim", "dev-cursor"];
    assert "dev-neovim" !in ["dev-cursor"];
  }

  lemma DevelopmentIdsDistinct()
    ensures forall i, j :: 0 <= i < j < |DevelopmentRuleIds| ==> DevelopmentRuleIds[i] != DevelopmentRuleIds[j]
  {
    DevelopmentIdsDistinctFrom0();
    DevelopmentIdsDistinctFrom2();
    DevelopmentIdsDistinctFrom4();
    DevelopmentIdsDistinctFrom6();
    DevelopmentIdsDistinctFrom9();
    DevelopmentIdsDistinctFrom14();
  }
}

/** The shapes of categories, rules and categorisation records
    (src/types/categories.ts) and the built-in categories and rules. */
module Categories {
  import opened Text
  import opened Lists
  import BuiltInRuleIds

  datatype Category = Category(
    id: string,
    name: string,
    color: string,
    icon: string,
    isProductivity: bool,      // productive (true) or a distraction (false)
    productivityScore: int,    // 0-100
    isDefault: bool,           // built in
    order: int)

  /** What a rule looks at: the application, the window title, a URL, or
      application and title together. */
  datatype RuleKind = App | Title | Url | Combined

  datatype MatchType = Contains | Exact | StartsWith | EndsWith | Regex

  /** A rule; an absent pattern is the empty string, which JavaScript treats
      the same way as `undefined`. The creation time stamp is not kept. */
  datatype CategoryRule = CategoryRule(
    id: string,
    categoryId: string,
    kind: RuleKind,
    matchType: MatchType,
    appPattern: string,
    titlePattern: string,
    urlPattern: string,
    priority: int,             // higher is checked first
    isEnabled: bool,
    isDefault: bool)

  /** The category an activity was put in, by a rule or by hand. The override
      time is a millisecond time stamp. */
  datatype CategorizedActivity = CategorizedActivity(
    activityId: string,
    categoryId: string,
    autoAssigned: bool,
    ruleId: Option<string>,
    confidence: real,
    overriddenAt: Option<int>)

  function CategoryId(c: Category): string { c.id }
  function RuleId(r: CategoryRule): string { r.id }
  function Priority(r: CategoryRule): int { r.priority }
  /** Sorting descending by the negated order sorts ascending by order. */
  function NegatedOrder(c: Category): int { -c.order }

  const UNCATEGORIZED: string := "uncategorized"

  function AppRule(id: string, categoryId: string, mt: MatchType, pattern: string, priority: int): CategoryRule {
    CategoryRule(id, categoryId, App, mt, pattern, "", "", priority, true, true)
  }

  function TitleRule(id: string, categoryId: string, mt: MatchType, pattern: string, priority: int): CategoryRule {
    CategoryRule(id, categoryId, Title, mt, "", pattern, "", priority, true, true)
  }

  /** The built-in categories, in their declared order. */
  const DEFAULT_CATEGORIES: seq<Category> := [
    Category("development", "Development", "#3B82F6", "code", true, 100, true, 1),
    Category("communication", "Communication", "#8B5CF6", "message-circle", true, 70, true, 2),
    Category("design", "Design", "#EC4899", "palette", true, 100, true, 3),
    Category("meetings", "Meetings", "#F59E0B", "users", true, 60, true, 4),
    Category("documentation", "Documentation", "#10B981", "file-text", true, 90, true, 5),
    Category("research", "Research", "#06B6D4", "search", true, 80, true, 6),
    Category("entertainment", "Entertainment", "#EF4444", "play-circle", false, 10, true, 7),
    Category("social-media", "Social Media", "#F97316", "share-2", false, 15, true, 8),
    Category("utilities", "Utilities", "#6B7280", "settings", true, 50, true, 9),
    Category("uncategorized", "Uncategorized", "#9CA3AF", "help-circle", true, 50, true, 100)
  ]

  const DevelopmentRules: seq<CategoryRule> := [
    AppRule("dev-vscode", "development", Contains, "Visual Studio Code", 100),
    AppRule("dev-vscode2", "development", Contains, "Code", 90),
    AppRule("dev-intellij", "development", Contains, "IntelliJ", 100),
    AppRule("dev-webstorm", "development", Contains, "WebStorm", 100),
    AppRule("dev-pycharm", "development", Contains, "PyCharm", 100),
    AppRule("dev-sublime", "development", Contains, "Sublime Text", 100),
    AppRule("dev-atom", "development", Contains, "Atom", 90),
    AppRule("dev-xcode", "development", Contains, "Xcode", 100),
    AppRule("dev-android", "development", Contains, "Android Studio", 100),
    AppRule("dev-terminal", "development", Contains, "Terminal", 80),
    AppRule("dev-iterm", "development", Contains, "iTerm", 80),
    AppRule("dev-cmd", "development", Contains, "cmd.exe", 80),
    AppRule("dev-powershell", "development", Contains, "PowerShell", 80),
    TitleRule("dev-github-title", "development", Contains, "GitHub", 70),
    TitleRule("dev-gitlab-title", "development", Contains, "GitLab", 70),
    TitleRule("dev-bitbucket-title", "development", Contains, "Bitbucket", 70),
    TitleRule("dev-stackoverflow", "development", Contains, "Stack Overflow", 70),
    AppRule("dev-vim", "development", Contains, "vim", 80),
    AppRule("dev-neovim", "development", Contains, "nvim", 80),
    AppRule("dev-cursor", "development", Contains, "Cursor", 100)
  ]

  const CommunicationRules: seq<CategoryRule> := [
    AppRule("comm-slack", "communication", Contains, "Slack", 100),
    AppRule("comm-teams", "communication", Contains, "Microsoft Teams", 100),
    AppRule("comm-discord", "communication", Contains, "Discord", 100),
    AppRule("comm-outlook", "communication", Contains, "Outlook", 90),
    TitleRule("comm-gmail", "communication", Contains, "Gmail", 90),
    AppRule("comm-mail", "communication", Contains, "Mail", 80),
    AppRule("comm-telegram", "communication", Contains, "Telegram", 90),
    AppRule("comm-whatsapp", "communication", Contains, "WhatsApp", 90)
  ]

  const DesignRules: seq<CategoryRule> := [
    AppRule("design-figma", "design", Contains, "Figma", 100),
    TitleRule("design-figma-title", "design", Contains, "Figma", 90),
    AppRule("design-sketch", "design", Contains, "Sketch", 100),
    AppRule("design-photoshop", "design", Contains, "Photoshop", 100),
    AppRule("design-illustrator", "design", Contains, "Illustrator", 100),
    AppRule("design-xd", "design", Contains, "Adobe XD", 100),
    TitleRule("design-canva", "design", Contains, "Canva", 90),
    AppRule("design-invision", "design", Contains, "InVision", 100),
    AppRule("design-affinity", "design", Contains, "Affinity", 100)
  ]

  const MeetingRules: seq<CategoryRule> := [
    AppRule("meet-zoom", "meetings", Contains, "zoom", 100),
    TitleRule("meet-meet", "meetings", Contains, "Google Meet", 100),
    AppRule("meet-webex", "meetings", Contains, "Webex", 100),
    AppRule("meet-skype", "meetings", Contains, "Skype", 100),
    AppRule("meet-facetime", "meetings", Contains, "FaceTime", 100),
    AppRule("meet-around", "meetings", Contains, "Around", 100),
    AppRule("meet-loom", "meetings", Contains, "Loom", 90)
  ]

  const DocumentationRules: seq<CategoryRule> := [
    AppRule("doc-notion", "documentation", Contains, "Notion", 100),
    TitleRule("doc-notion-title", "documentation", Contains, "Notion", 90),
    TitleRule("doc-confluence", "documentation", Contains, "Confluence", 100),
    TitleRule("doc-gdocs", "documentation", Contains, "Google Docs", 100),
    AppRule("doc-word", "documentation", Contains, "Microsoft Word", 100),
    AppRule("doc-obsidian", "documentation", Contains, "Obsidian", 100),
    AppRule("doc-evernote", "documentation", Contains, "Evernote", 100),
    AppRule("doc-bear", "documentation", Contains, "Bear", 90),
    TitleRule("doc-coda", "documentation", Contains, "Coda", 80)
  ]

  const ResearchRules: seq<CategoryRule> := [
    AppRule("research-chrome", "research", Contains, "Google Chrome", 30),
    AppRule("research-firefox", "research", Contains, "Firefox", 30),
    AppRule("research-safari", "research", Contains, "Safari", 30),
    AppRule("research-edge", "research", Contains, "Microsoft Edge", 30),
    AppRule("research-brave", "research", Contains, "Brave", 30)
  ]

  const EntertainmentRules: seq<CategoryRule> := [
    TitleRule("ent-youtube", "entertainment", Contains, "YouTube", 80),
    TitleRule("ent-netflix", "entertainment", Contains, "Netflix", 100),
    AppRule("ent-spotify", "entertainment", Contains, "Spotify", 100),
    TitleRule("ent-twitch", "entertainment", Contains, "Twitch", 100),
    TitleRule("ent-prime", "entertainment", Contains, "Prime Video", 100),
    TitleRule("ent-disney", "entertainment", Contains, "Disney+", 100),
    TitleRule("ent-hulu", "entertainment", Contains, "Hulu", 100),
    AppRule("ent-apple-music", "entertainment", Contains, "Music", 70)
  ]

  const SocialMediaRules: seq<CategoryRule> := [
    TitleRule("social-twitter", "social-media", Contains, "Twitter", 100),
    TitleRule("social-x", "social-media", Contains, "/ X", 90),
    TitleRule("social-facebook", "social-media", Contains, "Facebook", 100),
    TitleRule("social-instagram", "social-media", Contains, "Instagram", 100),
    TitleRule("social-linkedin", "social-media", Contains, "LinkedIn", 100),
    TitleRule("social-reddit", "social-media", Contains, "Reddit", 100),
    TitleRule("social-tiktok", "social-media", Contains, "TikTok", 100)
  ]

  const UtilityRules: seq<CategoryRule> := [
    AppRule("util-finder", "utilities", Exact, "Finder", 80),
    AppRule("util-explorer", "utilities", Contains, "Explorer", 80),
    AppRule("util-settings", "utilities", Contains, "Settings", 80),
    AppRule("util-preferences", "utilities", Contains, "Preferences", 80),
    AppRule("util-1password", "utilities", Contains, "1Password", 90),
    AppRule("util-lastpass", "utilities", Contains, "LastPass", 90)
  ]

  /** The built-in rules, group by group as declared. */
  const RuleGroups: seq<seq<CategoryRule>> := [
    DevelopmentRules, CommunicationRules, DesignRules, MeetingRules, DocumentationRules,
    ResearchRules, EntertainmentRules, SocialMediaRules, UtilityRules
  ]

  /** Every rule id of a group starts with the group's prefix. */
  const RulePrefixes: seq<string> := [
    "dev-", "comm-", "design-", "meet-", "doc-", "research-", "ent-", "social-", "util-"
  ]

  /** The category every rule of a group points to. */
  const GroupCategories: seq<string> := [
    "development", "communication", "design", "meetings", "documentation",
    "research", "entertainment", "social-media", "utilities"
  ]

  /** The built-in rules: the groups above, one after the other. */
  const DEFAULT_RULES: seq<CategoryRule> := Flatten(RuleGroups)

  // ---------------------------------------------------------------------
  // Facts about the built-in data

  predicate DistinctStrings(ids: seq<string>) {
    forall i, j :: 0 <= i < j < |ids| ==> ids[i] != ids[j]
  }

  lemma DevelopmentIdsListed()
    ensures Ids(DevelopmentRules, RuleId) == BuiltInRuleIds.DevelopmentRuleIds
  {
  }

  lemma DevelopmentRulesDistinct()
    ensures DistinctIds(DevelopmentRules, RuleId)
  {
    DevelopmentIdsListed();
    BuiltInRuleIds.DevelopmentIdsDistinct();
  }

  lemma CommunicationIdsListed()
    ensures Ids(CommunicationRules, RuleId) == ["comm-slack", "comm-teams", "comm-discord", "comm-outlook", "comm-gmail", "comm-mail", "comm-telegram", "comm-whatsapp"]
  {
  }

  lemma CommunicationRulesDistinct()
    ensures DistinctIds(CommunicationRules, RuleId)
  {
    CommunicationIdsListed();
    assert "comm-slack" !in ["comm-teams", "comm-discord", "comm-outlook", "comm-gmail", "comm-mail", "comm-telegram", "comm-whatsapp"];
    assert "comm-teams" !in ["comm-discord", "comm-outlook", "comm-gmail", "comm-mail", "comm-telegram", "comm-whatsapp"];
    assert "comm-discord" !in ["comm-outlook", "comm-gmail", "comm-mail", "comm-telegram", "comm-whatsapp"];
    assert "comm-outlook" !in ["comm-gmail", "comm-mail", "comm-telegram", "comm-whatsapp"];
    assert "comm-gmail" !in ["comm-mail", "comm-telegram", "comm-whatsapp"];
    assert "comm-mail" !in ["comm-telegram", "comm-whatsapp"];
    assert "comm-telegram" !in ["comm-whatsapp"];
  }

  lemma DesignIdsListed()
    ensures Ids(DesignRules, RuleId) == ["design-figma", "design-figma-title", "design-sketch", "design-photoshop", "design-illustrator", "design-xd", "design-canva", "design-invision", "design-affinity"]
  {
  }

  lemma DesignRulesDistinct()
    ensures DistinctIds(DesignRules, RuleId)
  {
    DesignIdsListed();
    assert "design-figma" !in ["design-figma-title", "design-sketch", "design-photoshop", "design-illustrator", "design-xd", "design-canva", "design-invision", "design-affinity"];
    assert "design-figma-title" !in ["design-sketch", "design-photoshop", "design-illustrator", "design-xd", "design-canva", "design-invision", "design-affinity"];
    assert "design-sketch" !in ["design-photoshop", "design-illustrator", "design-xd", "design-canva", "design-invision", "design-affinity"];
    assert "design-photoshop" !in ["design-illustrator", "design-xd", "design-canva", "design-invision", "design-affinity"];
    assert "design-illustrator" !in ["design-xd", "design-canva", "design-invision", "design-affinity"];
    assert "design-xd" !in ["design-canva", "design-invision", "design-affinity"];
    assert "design-canva" !in ["design-invision", "design-affinity"];
    assert "design-invision" !in ["design-affinity"];
  }

  lemma MeetingIdsListed()
    ensures Ids(MeetingRules, RuleId) == ["meet-zoom", "meet-meet", "meet-webex", "meet-skype", "meet-facetime", "meet-around", "meet-loom"]
  {
  }

  lemma MeetingRulesDistinct()
    ensures DistinctIds(MeetingRules, RuleId)
  {
    MeetingIdsListed();
    assert "meet-zoom" !in ["meet-meet", "meet-webex", "meet-skype", "meet-facetime", "meet-around", "meet-loom"];
    assert "meet-meet" !in ["meet-webex", "meet-skype", "meet-facetime", "meet-around", "meet-loom"];
    assert "meet-webex" !in ["meet-skype", "meet-facetime", "meet-around", "meet-loom"];
    assert "meet-skype" !in ["meet-facetime", "meet-around", "meet-loom"];
    assert "meet-facetime" !in ["meet-around", "meet-loom"];
    assert "meet-around" !in ["meet-loom"];
  }

  lemma DocumentationIdsListed()
    ensures Ids(DocumentationRules, RuleId) == ["doc-notion", "doc-notion-title", "doc-confluence", "doc-gdocs", "doc-word", "doc-obsidian", "doc-evernote", "doc-bear", "doc-coda"]
  {
  }

  lemma DocumentationRulesDistinct()
    ensures DistinctIds(DocumentationRules, RuleId)
  {
    DocumentationIdsListed();
    assert "doc-notion" !in ["doc-notion-title", "doc-confluence", "doc-gdocs", "doc-word", "doc-obsidian", "doc-evernote", "doc-bear", "doc-coda"];
    assert "doc-notion-title" !in ["doc-confluence", "doc-gdocs", "doc-word", "doc-obsidian", "doc-evernote", "doc-bear", "doc-coda"];
    assert "doc-confluence" !in ["doc-gdocs", "doc-word", "doc-obsidian", "doc-evernote", "doc-bear", "doc-coda"];
    assert "doc-gdocs" !in ["doc-word", "doc-obsidian", "doc-evernote", "doc-bear", "doc-coda"];
    assert "doc-word" !in ["doc-obsidian", "doc-evernote", "doc-bear", "doc-coda"];
    assert "doc-obsidian" !in ["doc-evernote", "doc-bear", "doc-coda"];
    assert "doc-evernote" !in ["doc-bear", "doc-coda"];
    assert "doc-bear" !in ["doc-coda"];
  }

  lemma ResearchIdsListed()
    ensures Ids(ResearchRules, RuleId) == ["research-chrome", "research-firefox", "research-safari", "research-edge", "research-brave"]
  {
  }

  lemma ResearchRulesDistinct()
    ensures DistinctIds(ResearchRules, RuleId)
  {
    ResearchIdsListed();
    assert "research-chrome" !in ["research-firefox", "research-safari", "research-edge", "research-brave"];
    assert "research-firefox" !in ["research-safari", "research-edge", "research-brave"];
    assert "research-safari" !in ["research-edge", "research-brave"];
    assert "research-edge" !in ["research-brave"];
  }

  lemma EntertainmentIdsListed()
    ensures Ids(EntertainmentRules, RuleId) == ["ent-youtube", "ent-netflix", "ent-spotify", "ent-twitch", "ent-prime", "ent-disney", "ent-hulu", "ent-apple-music"]
  {
  }

  lemma EntertainmentRulesDistinct()
    ensures DistinctIds(EntertainmentRules, RuleId)
  {
    EntertainmentIdsListed();
    assert "ent-youtube" !in ["ent-netflix", "ent-spotify", "ent-twitch", "ent-prime", "ent-disney", "ent-hulu", "ent-apple-music"];
    assert "ent-netflix" !in ["ent-spotify", "ent-twitch", "ent-prime", "ent-disney", "ent-hulu", "ent-apple-music"];
    assert "ent-spotify" !in ["ent-twitch", "ent-prime", "ent-disney", "ent-hulu", "ent-apple-music"];
    assert "ent-twitch" !in ["ent-prime", "ent-disney", "ent-hulu", "ent-apple-music"];
    assert "ent-prime" !in ["ent-disney", "ent-hulu", "ent-apple-music"];
    assert "ent-disney" !in ["ent-hulu", "ent-apple-music"];
    assert "ent-hulu" !in ["ent-apple-music"];
  }

  lemma SocialMediaIdsListed()
    ensures Ids(SocialMediaRules, RuleId) == ["social-twitter", "social-x", "social-facebook", "social-instagram", "social-linkedin", "social-reddit", "social-tiktok"]
  {
  }

  lemma SocialMediaRulesDistinct()
    ensures DistinctIds(SocialMediaRules, RuleId)
  {
    SocialMediaIdsListed();
    assert "social-twitter" !in ["social-x", "social-facebook", "social-instagram", "social-linkedin", "social-reddit", "social-tiktok"];
    assert "social-x" !in ["social-facebook", "social-instagram", "social-linkedin", "social-reddit", "social-tiktok"];
    assert "social-facebook" !in ["social-instagram", "social-linkedin", "social-reddit", "social-tiktok"];
    assert "social-instagram" !in ["social-linkedin", "social-reddit", "social-tiktok"];
    assert "social-linkedin" !in ["social-reddit", "social-tiktok"];
    assert "social-reddit" !in ["social-tiktok"];
  }

  lemma UtilityIdsListed()
    ensures Ids(UtilityRules, RuleId) == ["util-finder", "util-explorer", "util-settings", "util-preferences", "util-1password", "util-lastpass"]
  {
  }

  lemma UtilityRulesDistinct()
    ensures DistinctIds(UtilityRules, RuleId)
  {
    UtilityIdsListed();
    assert "util-finder" !in ["util-explorer", "util-settings", "util-preferences", "util-1password", "util-lastpass"];
    assert "util-explorer" !in ["util-settings", "util-preferences", "util-1password", "util-lastpass"];
    assert "util-settings" !in ["util-preferences", "util-1password", "util-lastpass"];
    assert "util-preferences" !in ["util-1password", "util-lastpass"];
    assert "util-1password" !in ["util-lastpass"];
  }
  /** What holds of every built-in rule: it is built in and enabled, its
      priority lies in 30..100, and an application or title rule carries the
      pattern it needs. */
  predicate BuiltInShape(r: CategoryRule) {
    r.isDefault && r.isEnabled && 30 <= r.priority <= 100
    && (r.kind == App ==> r.appPattern != [])
    && (r.kind == Title ==> r.titlePattern != [])
  }

  lemma DevelopmentRulesShapeFrom(lo: nat, hi: nat)
    requires (lo, hi) == (0, 10) || (lo, hi) == (10, 20)
    ensures forall i :: lo <= i < hi ==>
      BuiltInShape(DevelopmentRules[i]) && HasPrefix(DevelopmentRules[i].id, "dev-") && DevelopmentRules[i].categoryId == "development"
  {
  }

  lemma DevelopmentRulesShape()
    ensures forall i :: 0 <= i < |DevelopmentRules| ==>
      BuiltInShape(DevelopmentRules[i]) && HasPrefix(DevelopmentRules[i].id, "dev-") && DevelopmentRules[i].categoryId == "development"
  {
    DevelopmentRulesShapeFrom(0, 10);
    DevelopmentRulesShapeFrom(10, 20);
  }

  lemma CommunicationRulesShape()
    ensures forall i :: 0 <= i < |CommunicationRules| ==>
      BuiltInShape(CommunicationRules[i]) && HasPrefix(CommunicationRules[i].id, "comm-") && CommunicationRules[i].categoryId == "communication"
  {
  }

  lemma DesignRulesShape()
    ensures forall i :: 0 <= i < |DesignRules| ==>
      BuiltInShape(DesignRules[i]) && HasPrefix(DesignRules[i].id, "design-") && DesignRules[i].categoryId == "design"
  {
  }

  lemma MeetingRulesShape()
    ensures forall i :: 0 <= i < |MeetingRules| ==>
      BuiltInShape(MeetingRules[i]) && HasPrefix(MeetingRules[i].id, "meet-") && MeetingRules[i].categoryId == "meetings"
  {
  }

  lemma DocumentationRulesShape()
    ensures forall i :: 0 <= i < |DocumentationRules| ==>
      BuiltInShape(DocumentationRules[i]) && HasPrefix(DocumentationRules[i].id, "doc-") && DocumentationRules[i].categoryId == "documentation"
  {
  }

  lemma ResearchRulesShape()
    ensures forall i :: 0 <= i < |ResearchRules| ==>
      BuiltInShape(ResearchRules[i]) && HasPrefix(ResearchRules[i].id, "research-") && ResearchRules[i].categoryId == "research"
  {
  }

  lemma EntertainmentRulesShape()
    ensures forall i :: 0 <= i < |EntertainmentRules| ==>
      BuiltInShape(EntertainmentRules[i]) && HasPrefix(EntertainmentRules[i].id, "ent-") && EntertainmentRules[i].categoryId == "entertainment"
  {
  }

  lemma SocialMediaRulesShape()
    ensures forall i :: 0 <= i < |SocialMediaRules| ==>
      BuiltInShape(SocialMediaRules[i]) && HasPrefix(SocialMediaRules[i].id, "social-") && SocialMediaRules[i].categoryId == "social-media"
  {
  }

  lemma UtilityRulesShape()
    ensures forall i :: 0 <= i < |UtilityRules| ==>
      BuiltInShape(UtilityRules[i]) && HasPrefix(UtilityRules[i].id, "util-") && UtilityRules[i].categoryId == "utilities"
  {
  }

  lemma RuleGroupsShape()
    ensures forall k, i :: 0 <= k < |RuleGroups| && 0 <= i < |RuleGroups[k]| ==>
      BuiltInShape(RuleGroups[k][i])
      && HasPrefix(RuleGroups[k][i].id, RulePrefixes[k])
      && RuleGroups[k][i].categoryId == GroupCategories[k]
  {
    DevelopmentRulesShape();
    CommunicationRulesShape();
    DesignRulesShape();
    MeetingRulesShape();
    DocumentationRulesShape();
    ResearchRulesShape();
    EntertainmentRulesShape();
    SocialMediaRulesShape();
    UtilityRulesShape();
  }

  lemma RulePrefixesIncompatible()
    ensures forall k, l :: 0 <= k < l < |RulePrefixes| ==> Incompatible(RulePrefixes[k], RulePrefixes[l])
  {
  }

  /** Built-in rule ids are pairwise distinct. */
  lemma DefaultRuleIdsDistinct()
    ensures DistinctIds(DEFAULT_RULES, RuleId)
  {
    DevelopmentRulesDistinct();
    CommunicationRulesDistinct();
    DesignRulesDistinct();
    MeetingRulesDistinct();
    DocumentationRulesDistinct();
    ResearchRulesDistinct();
    EntertainmentRulesDistinct();
    SocialMediaRulesDistinct();
    UtilityRulesDistinct();
    assert forall k :: 0 <= k < |RuleGroups| ==> DistinctIds(RuleGroups[k], RuleId);
    RuleGroupsShape();
    RulePrefixesIncompatible();
    FlattenDistinct(RuleGroups, RulePrefixes, RuleId);
  }

  lemma DefaultCategoryIdsDistinctHead()
    ensures forall i, j :: 0 <= i < 3 && i < j < |DEFAULT_CATEGORIES| ==> DEFAULT_CATEGORIES[i].id != DEFAULT_CATEGORIES[j].id
  {
    assert Ids(DEFAULT_CATEGORIES, CategoryId) == ["development", "communication", "design", "meetings", "documentation", "research", "entertainment", "social-media", "utilities", "uncategorized"];
    assert "development" !in ["communication", "design", "meetings", "documentation", "research", "entertainment", "social-media", "utilities", "uncategorized"];
    assert "communication" !in ["design", "meetings", "documentation", "research", "entertainment", "social-media", "utilities", "uncategorized"];
    assert "design" !in ["meetings", "documentation", "research", "entertainment", "social-media", "utilities", "uncategorized"];
  }

  lemma DefaultCategoryIdsDistinctTail()
    ensures forall i, j :: 3 <= i < j < |DEFAULT_CATEGORIES| ==> DEFAULT_CATEGORIES[i].id != DEFAULT_CATEGORIES[j].id
  {
    assert Ids(DEFAULT_CATEGORIES, CategoryId) == ["development", "communication", "design", "meetings", "documentation", "research", "entertainment", "social-media", "utilities", "uncategorized"];
    assert "meetings" !in ["documentation", "research", "entertainment", "social-media", "utilities", "uncategorized"];
    assert "documentation" !in ["research", "entertainment", "social-media", "utilities", "uncategorized"];
    assert "research" !in ["entertainment", "social-media", "utilities", "uncategorized"];
    assert "entertainment" !in ["social-media", "utilities", "uncategorized"];
    assert "social-media" !in ["utilities", "uncategorized"];
    assert "utilities" !in ["uncategorized"];
  }

  /** The built-in categories: distinct ids, `uncategorized` among them, all
      built in, scores within 0..100. */
  lemma DefaultCategoriesWellFormed()
    ensures DistinctIds(DEFAULT_CATEGORIES, CategoryId)
    ensures HasId(DEFAULT_CATEGORIES, CategoryId, UNCATEGORIZED)
    ensures forall i :: 0 <= i < |DEFAULT_CATEGORIES| ==>
      DEFAULT_CATEGORIES[i].isDefault && 0 <= DEFAULT_CATEGORIES[i].productivityScore <= 100
  {
    DefaultCategoryIdsDistinctHead();
    DefaultCategoryIdsDistinctTail();
    assert DEFAULT_CATEGORIES[9].id == UNCATEGORIZED;
  }

  lemma GroupCategoriesBuiltIn()
    ensures forall k :: 0 <= k < |GroupCategories| ==> HasId(DEFAULT_CATEGORIES, CategoryId, GroupCategories[k])
  {
    forall k | 0 <= k < |GroupCategories| ensures HasId(DEFAULT_CATEGORIES, CategoryId, GroupCategories[k]) {
      assert DEFAULT_CATEGORIES[k].id == GroupCategories[k];
    }
  }

  /** Every built-in rule is well formed and names a built-in category. */
  lemma DefaultRulesWellFormed()
    ensures forall n :: 0 <= n < |DEFAULT_RULES| ==>
      BuiltInShape(DEFAULT_RULES[n]) && HasId(DEFAULT_CATEGORIES, CategoryId, DEFAULT_RULES[n].categoryId)
  {
    var P := (r: CategoryRule) => BuiltInShape(r) && HasId(DEFAULT_CATEGORIES, CategoryId, r.categoryId);
    RuleGroupsShape();
    GroupCategoriesBuiltIn();
    FlattenAll(RuleGroups, P);
  }
}
