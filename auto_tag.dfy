/**
 * The keyword auto-tagger: a title earns the name of every rule one of whose
 * keywords occurs in it, compared case-insensitively, in table order.
 */
module AutoTag {
  import opened Wrappers
  import opened Strings
  import opened Seqs
  import opened TagConstants

  /** Some keyword of `rule`, lower-cased, occurs in the lower-cased title. */
  predicate RuleMatches(rule: TagRule, lowerTitle: string) {
    exists k :: 0 <= k < |rule.keywords| && Contains(lowerTitle, Lower(rule.keywords[k]))
  }

  /** The tag list once the outer loop of the tagger has visited `rules`:
      a matching rule adds its name unless the name is already listed. */
  function DetectedAfter(rules: seq<TagRule>, lowerTitle: string): seq<string> {
    if rules == [] then []
    else
      var acc := DetectedAfter(rules[..|rules| - 1], lowerTitle);
      var rule := rules[|rules| - 1];
      if RuleMatches(rule, lowerTitle) && rule.tagName !in acc then acc + [rule.tagName] else acc
  }

  /** The tags of a title, as the store applies them. */
  function Detect(title: string): seq<string> {
    DetectedAfter(TagRules, Lower(title))
  }

  /** `detectTags` on the rule table. */
  method DetectTags(title: string) returns (detected: seq<string>)
    ensures detected == Detect(title)
  {
    detected := ScanRules(TagRules, title);
  }

  /** The nested keyword scan of `detectTags` over a rule table, moving to the
      next rule after the first keyword of a rule that matches. */
  method ScanRules(rules: seq<TagRule>, title: string) returns (detected: seq<string>)
    ensures detected == DetectedAfter(rules, Lower(title))
  {
    var lowerTitle := Lower(title);
    detected := [];
    for r := 0 to |rules|
      invariant detected == DetectedAfter(rules[..r], lowerTitle)
    {
      var rule := rules[r];
      ghost var before := detected;
      var matched := false;
      var k := 0;
      while k < |rule.keywords|
        invariant 0 <= k <= |rule.keywords|
        invariant detected == before && !matched
        invariant forall j :: 0 <= j < k ==> !Contains(lowerTitle, Lower(rule.keywords[j]))
      {
        if Contains(lowerTitle, Lower(rule.keywords[k])) {
          if rule.tagName !in detected {
            detected := detected + [rule.tagName];
          }
          matched := true;
          break;
        }
        k := k + 1;
      }
      assert matched <==> RuleMatches(rule, lowerTitle);
      assert rules[..r + 1][..r] == rules[..r];
    }
    assert rules[..|rules|] == rules;
  }

  /** A name is detected exactly when some rule carrying that name matches. */
  lemma {:induction false} DetectedIff(rules: seq<TagRule>, lowerTitle: string, name: string)
    ensures name in DetectedAfter(rules, lowerTitle) <==>
            exists i :: 0 <= i < |rules| && rules[i].tagName == name && RuleMatches(rules[i], lowerTitle)
  {
    if rules != [] {
      var init := rules[..|rules| - 1];
      DetectedIff(init, lowerTitle, name);
      if i :| 0 <= i < |init| && init[i].tagName == name && RuleMatches(init[i], lowerTitle) {
        assert rules[i] == init[i];
      }
      if i :| 0 <= i < |rules| && rules[i].tagName == name && RuleMatches(rules[i], lowerTitle) {
        if i < |init| {
          assert init[i] == rules[i];
        }
      }
    }
  }

  /** No name is listed twice, and there are never more names than rules. */
  lemma {:induction false} DetectedNoDups(rules: seq<TagRule>, lowerTitle: string)
    ensures NoDups(DetectedAfter(rules, lowerTitle))
    ensures |DetectedAfter(rules, lowerTitle)| <= |rules|
  {
    if rules != [] {
      DetectedNoDups(rules[..|rules| - 1], lowerTitle);
    }
  }

  /** The names of the matching rules, in table order. */
  function MatchingNames(rules: seq<TagRule>, lowerTitle: string): seq<string> {
    if rules == [] then []
    else
      var rule := rules[|rules| - 1];
      MatchingNames(rules[..|rules| - 1], lowerTitle)
        + (if RuleMatches(rule, lowerTitle) then [rule.tagName] else [])
  }

  /** With distinct rule names the duplicate check never fires: the output is
      exactly the names of the matching rules, in table order. */
  lemma {:induction false} DetectedInTableOrder(rules: seq<TagRule>, lowerTitle: string)
    requires DistinctNames(rules)
    ensures DetectedAfter(rules, lowerTitle) == MatchingNames(rules, lowerTitle)
  {
    if rules != [] {
      var init, last := rules[..|rules| - 1], rules[|rules| - 1];
      assert DistinctNames(init);
      DetectedInTableOrder(init, lowerTitle);
      DetectedIff(init, lowerTitle, last.tagName);
    }
  }

  /** The tagger on the real table: each output name is the name of a matching
      rule, every matching rule is represented, the order is the table's, and a
      title that matches no keyword gets no tags. */
  lemma DetectSpec(title: string)
    ensures Detect(title) == MatchingNames(TagRules, Lower(title))
    ensures NoDups(Detect(title)) && |Detect(title)| <= |TagRules|
    ensures forall i :: 0 <= i < |TagRules| ==>
              (TagRules[i].tagName in Detect(title) <==> RuleMatches(TagRules[i], Lower(title)))
    ensures (forall i :: 0 <= i < |TagRules| ==> !RuleMatches(TagRules[i], Lower(title))) ==>
              Detect(title) == []
  {
    TagRulesDistinct();
    DetectedInTableOrder(TagRules, Lower(title));
    DetectedNoDups(TagRules, Lower(title));
    forall i | 0 <= i < |TagRules|
      ensures TagRules[i].tagName in Detect(title) <==> RuleMatches(TagRules[i], Lower(title))
    {
      DetectedIff(TagRules, Lower(title), TagRules[i].tagName);
    }
    if forall i :: 0 <= i < |TagRules| ==> !RuleMatches(TagRules[i], Lower(title)) {
      if Detect(title) != [] {
        DetectedIff(TagRules, Lower(title), Detect(title)[0]);
      }
    }
  }

  /** Matching ignores case: a title and its lower-cased form get the same tags. */
  lemma DetectIgnoresCase(title: string)
    ensures Detect(Lower(title)) == Detect(title)
  {
    LowerIdempotent(title);
  }

  /** A title containing "walkthrough", in any case, is tagged both Tutorial
      and Gaming. */
  lemma WalkthroughTagsTwice(title: string)
    requires Contains(Lower(title), "walkthrough")
    ensures "Tutorial" in Detect(title) && "Gaming" in Detect(title)
  {
    var lt := Lower(title);
    WalkthroughMatchesTutorial(lt);
    WalkthroughMatchesGaming(lt);
    DetectedIff(TagRules, lt, "Tutorial");
    DetectedIff(TagRules, lt, "Gaming");
    assert TagRules[1] == TutorialRule && TagRules[4] == GamingRule;
  }

  /** "walkthrough" is a keyword of the Tutorial rule ... */
  lemma WalkthroughMatchesTutorial(lt: string)
    requires Contains(lt, "walkthrough")
    ensures RuleMatches(TutorialRule, lt) && TutorialRule.tagName == "Tutorial"
  {
    WalkthroughLower();
    assert Contains(lt, Lower(TutorialRule.keywords[6]));
  }

  /** ... and of the Gaming rule. */
  lemma WalkthroughMatchesGaming(lt: string)
    requires Contains(lt, "walkthrough")
    ensures RuleMatches(GamingRule, lt) && GamingRule.tagName == "Gaming"
  {
    WalkthroughLower();
    assert Contains(lt, Lower(GamingRule.keywords[5]));
  }

  lemma WalkthroughLower()
    ensures Lower("walkthrough") == "walkthrough"
  {
    LowerOfLowerCase("walkthrough");
  }

  /** `TAG_RULES.find(r => r.tagName === name)`. */
  function FindRule(rules: seq<TagRule>, name: string): (found: Option<TagRule>)
    ensures found.Some? ==> exists i :: 0 <= i < |rules| && rules[i] == found.value
                                     && found.value.tagName == name
                                     && forall j :: 0 <= j < i ==> rules[j].tagName != name
    ensures found.None? ==> forall i :: 0 <= i < |rules| ==> rules[i].tagName != name
  {
    if rules == [] then None
    else if rules[0].tagName == name then Some(rules[0])
    else
      FindRule(rules[1..], name)
  }

  /** `getTagColor`: the colour of the first rule with that name, falling back to
      indigo when there is none (or its colour is empty). */
  function GetTagColor(name: string): string {
    match FindRule(TagRules, name)
    case Some(rule) => if rule.color != "" then rule.color else "#6366f1"
    case None => "#6366f1"
  }

  /** Each rule's name maps to that rule's colour; any other name gets the
      default colour; either way the colour is in the palette. */
  lemma TagColorSpec(name: string)
    ensures forall i :: 0 <= i < |TagRules| && TagRules[i].tagName == name ==>
              GetTagColor(name) == TagRules[i].color
    ensures (forall i :: 0 <= i < |TagRules| ==> TagRules[i].tagName != name) ==>
              GetTagColor(name) == DefaultTagColor
    ensures GetTagColor(name) in TagColors
  {
    TagRulesDistinct();
    TagRulesWellFormed();
    var found := FindRule(TagRules, name);
    if found.Some? {
      var i :| 0 <= i < |TagRules| && TagRules[i] == found.value && found.value.tagName == name;
      assert found.value.color in TagColors;
    }
  }
}
