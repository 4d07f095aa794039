/** The fixed tag colour palette and keyword table the auto-tagger reads. */
module TagConstants {
  import opened Strings

  /** One row of the keyword table: any keyword in a title earns `tagName`. */
  datatype TagRule = TagRule(keywords: seq<string>, tagName: string, color: string)

  const DefaultFolderName: string := "Inbox"
  const DefaultTagColor: string := "#6366f1"

  const TagColors: seq<string> := [
    "#6366f1", // indigo
    "#8b5cf6", // purple
    "#ec4899", // pink
    "#ef4444", // red
    "#f59e0b", // amber
    "#10b981", // green
    "#3b82f6", // blue
    "#06b6d4", // cyan
    "#64748b"  // slate
  ]

  const DevRule := TagRule(
    ["react", "vue", "angular", "next.js", "nextjs", "typescript", "javascript",
     "python", "java", "golang", "rust", "programming", "coding", "developer",
     "software", "web dev", "frontend", "backend", "fullstack"],
    "Dev", "#6366f1")
  const TutorialRule := TagRule(
    ["tutorial", "guide", "how to", "learn", "course", "lesson", "walkthrough",
     "explained", "introduction", "beginner"],
    "Tutorial", "#10b981")
  const MusicRule := TagRule(
    ["music", "song", "album", "playlist", "audio", "lyrics", "official music video", "mv"],
    "Music", "#ec4899")
  const CookingRule := TagRule(
    ["cooking", "recipe", "food", "baking", "kitchen", "chef", "meal", "cuisine"],
    "Cooking", "#f59e0b")
  const GamingRule := TagRule(
    ["gaming", "gameplay", "game", "playthrough", "lets play", "walkthrough", "speedrun"],
    "Gaming", "#8b5cf6")
  const VlogRule := TagRule(
    ["vlog", "daily", "life", "lifestyle", "day in the life"],
    "Vlog", "#06b6d4")
  const TechReviewRule := TagRule(
    ["review", "unboxing", "comparison", "vs", "tech", "gadget", "product"],
    "Tech Review", "#3b82f6")
  const FitnessRule := TagRule(
    ["fitness", "workout", "exercise", "gym", "health", "training"],
    "Fitness", "#ef4444")
  const ComedyRule := TagRule(
    ["comedy", "funny", "humor", "laugh", "meme", "parody"],
    "Comedy", "#f59e0b")
  const PodcastRule := TagRule(
    ["podcast", "interview", "talk", "discussion", "conversation"],
    "Podcast", "#64748b")

  /** The rules in the order the tagger tries them. */
  const TagRules: seq<TagRule> := [
    DevRule, TutorialRule, MusicRule, CookingRule, GamingRule,
    VlogRule, TechReviewRule, FitnessRule, ComedyRule, PodcastRule
  ]

  predicate DistinctNames(rules: seq<TagRule>) {
    forall i, j :: 0 <= i < j < |rules| ==> rules[i].tagName != rules[j].tagName
  }

  /** The table has ten rules, with pairwise distinct names. */
  lemma TagRulesDistinct()
    ensures |TagRules| == 10
    ensures DistinctNames(TagRules)
  {
  }

  /** Every rule has at least one keyword and a colour from the palette. */
  lemma TagRulesWellFormed()
    ensures forall i :: 0 <= i < |TagRules| ==> TagRules[i].color in TagColors
    ensures forall i :: 0 <= i < |TagRules| ==> TagRules[i].keywords != []
  {
  }

  predicate KeywordsLowerCase(rule: TagRule) {
    forall k :: 0 <= k < |rule.keywords| ==> IsLowerCase(rule.keywords[k])
  }

  /** Every keyword is written in lower case already. */
  lemma KeywordsAreLowerCase()
    ensures forall i :: 0 <= i < |TagRules| ==> KeywordsLowerCase(TagRules[i])
  {
    DevRuleLowerCase();
    TutorialRuleLowerCase();
    MusicRuleLowerCase();
    CookingRuleLowerCase();
    GamingRuleLowerCase();
    VlogRuleLowerCase();
    TechReviewRuleLowerCase();
    FitnessRuleLowerCase();
    ComedyRuleLowerCase();
    PodcastRuleLowerCase();
  }

  lemma DevRuleLowerCase() ensures KeywordsLowerCase(DevRule) {
    DevRuleLowerCaseFront();
    DevRuleLowerCaseMiddle();
    DevRuleLowerCaseBack();
  }
  // The Dev table is long, so its keywords are checked a slice at a time.
  lemma DevRuleLowerCaseFront() ensures forall k :: 0 <= k < 7 ==> IsLowerCase(DevRule.keywords[k]) {}
  lemma DevRuleLowerCaseMiddle() ensures forall k :: 7 <= k < 13 ==> IsLowerCase(DevRule.keywords[k]) {}
  lemma DevRuleLowerCaseBack() ensures forall k :: 13 <= k < |DevRule.keywords| ==> IsLowerCase(DevRule.keywords[k]) {}
  lemma TutorialRuleLowerCase() ensures KeywordsLowerCase(TutorialRule) {}
  lemma MusicRuleLowerCase() ensures KeywordsLowerCase(MusicRule) {
    MusicRuleLowerCaseFront();
    MusicRuleLowerCaseBack();
  }
  lemma MusicRuleLowerCaseFront() ensures forall k :: 0 <= k < 5 ==> IsLowerCase(MusicRule.keywords[k]) {}
  lemma MusicRuleLowerCaseBack() ensures forall k :: 5 <= k < |MusicRule.keywords| ==> IsLowerCase(MusicRule.keywords[k]) {}
  lemma CookingRuleLowerCase() ensures KeywordsLowerCase(CookingRule) {}
  lemma GamingRuleLowerCase() ensures KeywordsLowerCase(GamingRule) {}
  lemma VlogRuleLowerCase() ensures KeywordsLowerCase(VlogRule) {}
  lemma TechReviewRuleLowerCase() ensures KeywordsLowerCase(TechReviewRule) {}
  lemma FitnessRuleLowerCase() ensures KeywordsLowerCase(FitnessRule) {}
  lemma ComedyRuleLowerCase() ensures KeywordsLowerCase(ComedyRule) {}
  lemma PodcastRuleLowerCase() ensures KeywordsLowerCase(PodcastRule) {}

  /** The default tag colour is the first palette entry. */
  lemma DefaultColorIsFirst()
    ensures DefaultTagColor == TagColors[0]
    ensures DefaultFolderName == "Inbox"
  {
  }

  /** "walkthrough" is a keyword of both Tutorial and Gaming, and Cooking and
      Comedy share one colour, so a colour does not identify a tag. */
  lemma SharedKeywordAndColor()
    ensures TagRules[1].tagName == "Tutorial" && TagRules[1].keywords[6] == "walkthrough"
    ensures TagRules[4].tagName == "Gaming" && TagRules[4].keywords[5] == "walkthrough"
    ensures TagRules[3].tagName == "Cooking" && TagRules[8].tagName == "Comedy"
    ensures TagRules[3].color == TagRules[8].color == "#f59e0b"
  {
  }
}
