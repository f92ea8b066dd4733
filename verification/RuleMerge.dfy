/** Rules that split one program between a name and a binary: reporting and merging them. */
module RuleMerge {
  import opened Text
  import opened Common
  import opened Names
  import opened Rules
  import opened KernelPolicy

  const CATEGORIES: seq<Category> := [Microphone, Camera, Monitor]

  datatype MergeChoices = MergeChoices(
    microphone: Option<Permission>, camera: Option<Permission>, monitor: Option<Permission>)
  {
    function Get(c: Category): Option<Permission> {
      match c
      case Microphone => microphone
      case Camera => camera
      case Monitor => monitor
    }
  }

  /** Both rules have an opinion, and not the same one. */
  predicate Conflict(a: Rule, b: Rule, c: Category) {
    a.Opinion(c).Some? && b.Opinion(c).Some? && a.Opinion(c) != b.Opinion(c)
  }

  // ---------------------------------------------------------------------------
  // Reporting
  // ---------------------------------------------------------------------------

  datatype RuleSplit = RuleSplit(nameRule: string, exeRule: string, exePath: string, conflicts: set<Category>)

  /** The first rule that owns a binary. */
  function FindRuleByExe(rules: seq<Rule>, exePath: string): (r: Option<Rule>)
    ensures r.Some? ==> r.value in rules && r.value.exePath == Some(exePath)
    ensures r.None? ==> forall q | q in rules :: q.exePath != Some(exePath)
  {
    if rules == [] then None
    else if rules[0].exePath == Some(exePath) then Some(rules[0])
    else FindRuleByExe(rules[1..], exePath)
  }

  /** What one observation, a declared name and a binary, reports. */
  function SplitOf(rules: seq<Rule>, name: string, exePath: string): Option<RuleSplit> {
    var byName, byExe := FindRule(rules, name), FindRuleByExe(rules, exePath);
    if byName.None? || byExe.None? then None
    else if byName.value.exePath.Some? || byName.value.appName == byExe.value.appName then None
    else
      var a, b := byName.value, byExe.value;
      Some(RuleSplit(a.appName, b.appName, exePath, set c: Category | Conflict(a, b, c)))
  }

  function FindRuleSplits(rules: seq<Rule>, observed: seq<(string, string)>): set<RuleSplit> {
    set o | o in observed && SplitOf(rules, o.0, o.1).Some? :: SplitOf(rules, o.0, o.1).value
  }

  // ---------------------------------------------------------------------------
  // Merging
  // ---------------------------------------------------------------------------

  datatype Refusal = NoRule | SameRule | CameraSession | DifferentBinaries | Unsettled(categories: seq<Category>)

  datatype MergeResult = Merged(rules: seq<Rule>) | Refusal(why: Refusal)

  /** Exactly the disagreements are answered. */
  predicate Settled(source: Rule, target: Rule, choices: MergeChoices) {
    forall c :: choices.Get(c).Some? <==> Conflict(source, target, c)
  }

  /** What the surviving rule says: the answer where they disagree, else whichever opinion there is. */
  function MergedOpinion(source: Rule, target: Rule, choices: MergeChoices, c: Category): Option<Permission> {
    if Conflict(source, target, c) then choices.Get(c)
    else if target.Opinion(c).Some? then target.Opinion(c) else source.Opinion(c)
  }

  function MergedRule(source: Rule, target: Rule, choices: MergeChoices): Rule {
    Rule(target.appName,
         MergedOpinion(source, target, choices, Microphone), MergedOpinion(source, target, choices, Camera),
         MergedOpinion(source, target, choices, Monitor),
         if target.exePath.Some? then target.exePath else source.exePath)
  }

  function WithoutName(rules: seq<Rule>, name: string): seq<Rule> {
    if rules == [] then []
    else
      var front, r := WithoutName(rules[..|rules| - 1], name), rules[|rules| - 1];
      if r.appName != name then front + [r] else front
  }

  /** The first rule of that exact name replaced. */
  function ReplaceNamed(rules: seq<Rule>, name: string, slot: Rule): seq<Rule> {
    if rules == [] then []
    else if rules[0].appName == name then [slot] + rules[1..]
    else [rules[0]] + ReplaceNamed(rules[1..], name, slot)
  }

  function AfterMerge(rules: seq<Rule>, source: Rule, target: Rule, choices: MergeChoices): seq<Rule> {
    ReplaceNamed(WithoutName(rules, source.appName), target.appName, MergedRule(source, target, choices))
  }

  predicate Mergeable(source: Rule, target: Rule, choices: MergeChoices) {
    && source.appName != target.appName
    && choices.camera != Some(WhileInUse)
    && !(source.exePath.Some? && target.exePath.Some? && source.exePath != target.exePath)
    && Settled(source, target, choices)
  }

  /** The categories refused among the first `i`: unanswered disagreements, and answers to no question. */
  function RefusedAmong(source: Rule, target: Rule, choices: MergeChoices, i: nat): seq<Category>
    requires i <= |CATEGORIES|
  {
    if i == 0 then []
    else
      var c := CATEGORIES[i - 1];
      RefusedAmong(source, target, choices, i - 1)
      + if choices.Get(c).Some? != Conflict(source, target, c) then [c] else []
  }

  function MergeOutcome(rules: seq<Rule>, from: string, into: string, choices: MergeChoices): MergeResult {
    var s, t := FindRule(rules, from), FindRule(rules, into);
    if s.None? || t.None? then Refusal(NoRule)
    else
      var source, target := s.value, t.value;
      if source.appName == target.appName then Refusal(SameRule)
      else if choices.camera == Some(WhileInUse) then Refusal(CameraSession)
      else if source.exePath.Some? && target.exePath.Some? && source.exePath != target.exePath then
        Refusal(DifferentBinaries)
      else if RefusedAmong(source, target, choices, 3) != [] then
        Refusal(Unsettled(RefusedAmong(source, target, choices, 3)))
      else Merged(AfterMerge(rules, source, target, choices))
  }

  lemma RefusedMeans(source: Rule, target: Rule, choices: MergeChoices)
    ensures RefusedAmong(source, target, choices, 3) == [] <==> Settled(source, target, choices)
  {
    assert RefusedAmong(source, target, choices, 1) == []
      <==> (choices.Get(Microphone).Some? <==> Conflict(source, target, Microphone));
    assert RefusedAmong(source, target, choices, 2) == []
      <==> RefusedAmong(source, target, choices, 1) == []
           && (choices.Get(Camera).Some? <==> Conflict(source, target, Camera));
    assert RefusedAmong(source, target, choices, 3) == []
      <==> RefusedAmong(source, target, choices, 2) == []
           && (choices.Get(Monitor).Some? <==> Conflict(source, target, Monitor));
  }

  lemma IsMergedRule(merged: Rule, source: Rule, target: Rule, choices: MergeChoices)
    requires merged.appName == target.appName
    requires merged.exePath == if target.exePath.Some? then target.exePath else source.exePath
    requires forall j | 0 <= j < |CATEGORIES| ::
               merged.Opinion(CATEGORIES[j]) == MergedOpinion(source, target, choices, CATEGORIES[j])
    ensures merged == MergedRule(source, target, choices)
  {
    hide MergedOpinion;
    assert merged.Opinion(CATEGORIES[0]) == merged.microphone;
    assert merged.Opinion(CATEGORIES[1]) == merged.camera;
    assert merged.Opinion(CATEGORIES[2]) == merged.monitor;
  }

  /** The merged list, or the first refusal; the given list is untouched. */
  method MergeRules(rules: seq<Rule>, from: string, into: string, choices: MergeChoices) returns (r: MergeResult)
    ensures r == MergeOutcome(rules, from, into, choices)
  {
    hide FindRule, WithoutName, ReplaceNamed, MergedRule, Conflict;
    var s, t := FindRule(rules, from), FindRule(rules, into);
    if s.None? || t.None? {
      return Refusal(NoRule);
    }
    var source, target := s.value, t.value;
    if source.appName == target.appName {
      return Refusal(SameRule);
    }
    if choices.camera == Some(WhileInUse) {
      return Refusal(CameraSession);
    }
    if source.exePath.Some? && target.exePath.Some? && source.exePath != target.exePath {
      return Refusal(DifferentBinaries);
    }
    var merged := target.(exePath := if target.exePath.Some? then target.exePath else source.exePath);
    var refused: seq<Category> := [];
    for i := 0 to |CATEGORIES|
      invariant refused == RefusedAmong(source, target, choices, i)
      invariant merged.appName == target.appName
      invariant merged.exePath == if target.exePath.Some? then target.exePath else source.exePath
      invariant refused == [] ==> forall j | 0 <= j < i ::
                  merged.Opinion(CATEGORIES[j]) == MergedOpinion(source, target, choices, CATEGORIES[j])
    {
      var c := CATEGORIES[i];
      var conflict := Conflict(source, target, c);
      if choices.Get(c).Some? && !conflict {
        refused := refused + [c];
      } else if conflict && choices.Get(c).None? {
        refused := refused + [c];
      } else {
        merged := merged.WithOpinion(c, if conflict then choices.Get(c)
                                        else if target.Opinion(c).Some? then target.Opinion(c) else source.Opinion(c));
      }
    }
    RefusedMeans(source, target, choices);
    if refused != [] {
      return Refusal(Unsettled(refused));
    }
    IsMergedRule(merged, source, target, choices);
    var after := WithoutName(rules, source.appName);
    r := Merged(ReplaceNamed(after, target.appName, merged));
  }

  /**
   A merge goes through exactly when both rules exist, differ, claim no two binaries, and every disagreement is
   settled.
   */
  lemma MergesExactlyWhen(rules: seq<Rule>, from: string, into: string, choices: MergeChoices)
    ensures MergeOutcome(rules, from, into, choices).Merged?
       <==> FindRule(rules, from).Some? && FindRule(rules, into).Some?
            && Mergeable(FindRule(rules, from).value, FindRule(rules, into).value, choices)
  {
    hide FindRule, RefusedAmong, Settled, AfterMerge;
    var s, t := FindRule(rules, from), FindRule(rules, into);
    if s.Some? && t.Some? {
      RefusedMeans(s.value, t.value, choices);
    }
  }

  // ---------------------------------------------------------------------------
  // What a merge leaves
  // ---------------------------------------------------------------------------

  /** With unique keys, the rule that answers is the rule of that key. */
  lemma FirstUnderUnique(rules: seq<Rule>, r: Rule)
    requires Unique(rules) && r in rules
    ensures FirstUnder(rules, Key(r)) == Some(r)
  {
    hide Key;
    var i :| 0 <= i < |rules| && rules[i] == r;
    IndexMeans(rules, Key(r));
  }

  lemma NoRuleUnder(rules: seq<Rule>, key: string)
    ensures FirstUnder(rules, key).None? <==> forall r | r in rules :: Key(r) != key
    ensures FirstUnder(rules, key).Some? ==>
              FirstUnder(rules, key).value in rules && Key(FirstUnder(rules, key).value) == key
  {
    hide Key;
    IndexMeans(rules, key);
  }

  lemma {:induction false} WithoutNameShape(rules: seq<Rule>, name: string)
    ensures forall r :: r in WithoutName(rules, name) <==> r in rules && r.appName != name
    ensures Unique(rules) ==> Unique(WithoutName(rules, name))
  {
    hide Normalize;
    if rules != [] {
      var front, r := rules[..|rules| - 1], rules[|rules| - 1];
      WithoutNameShape(front, name);
      assert rules == front + [r];
    }
  }

  lemma {:induction false} WithoutAbsentName(rules: seq<Rule>, name: string)
    requires forall r | r in rules :: r.appName != name
    ensures WithoutName(rules, name) == rules
  {
    if rules != [] {
      var front, r := rules[..|rules| - 1], rules[|rules| - 1];
      assert rules == front + [r];
      WithoutAbsentName(front, name);
    }
  }

  lemma {:induction false} WithoutNameCount(rules: seq<Rule>, source: Rule)
    requires Unique(rules) && source in rules
    ensures |WithoutName(rules, source.appName)| == |rules| - 1
  {
    hide Normalize;
    var front, r := rules[..|rules| - 1], rules[|rules| - 1];
    assert rules == front + [r];
    if r == source {
      assert forall q | q in front :: Key(q) != Key(r);
      WithoutAbsentName(front, source.appName);
    } else {
      assert source in front;
      assert Key(source) != Key(r);
      WithoutNameCount(front, source);
    }
  }

  lemma {:induction false} ReplaceNamedShape(rules: seq<Rule>, target: Rule, slot: Rule)
    requires Unique(rules) && target in rules && slot.appName == target.appName
    ensures |ReplaceNamed(rules, target.appName, slot)| == |rules|
    ensures forall i | 0 <= i < |rules| ::
              ReplaceNamed(rules, target.appName, slot)[i] == if rules[i] == target then slot else rules[i]
  {
    hide Normalize;
    if rules[0] == target {
      assert forall i | 0 < i < |rules| :: Key(rules[i]) != Key(target);
    } else {
      assert Key(rules[0]) != Key(target);
      assert target in rules[1..];
      ReplaceNamedShape(rules[1..], target, slot);
    }
  }

  /** After a merge: one rule fewer, keys still unique, and exactly the survivor and the untouched rules. */
  lemma MergeShape(rules: seq<Rule>, source: Rule, target: Rule, choices: MergeChoices)
    requires Unique(rules) && source in rules && target in rules && source.appName != target.appName
    ensures var after, merged := AfterMerge(rules, source, target, choices), MergedRule(source, target, choices);
            && |after| == |rules| - 1 && Unique(after)
            && forall r :: r in after <==> r == merged || (r in rules && r != source && r != target)
  {
    hide Normalize, WithoutName, ReplaceNamed;
    var front, merged := WithoutName(rules, source.appName), MergedRule(source, target, choices);
    var after := AfterMerge(rules, source, target, choices);
    WithoutNameShape(rules, source.appName);
    WithoutNameCount(rules, source);
    ReplaceNamedShape(front, target, merged);
    NamesAreUnique(rules);
    NamesAreUnique(front);
    assert Key(merged) == Key(target);
    forall r ensures r in after <==> r == merged || (r in front && r != target) {
      if r in front && r != target {
        var i :| 0 <= i < |front| && front[i] == r;
        assert after[i] == r;
      }
      var t :| 0 <= t < |front| && front[t] == target;
      assert after[t] == merged;
    }
  }

  lemma NamesAreUnique(rules: seq<Rule>)
    requires Unique(rules)
    ensures forall a, b | a in rules && b in rules && a.appName == b.appName :: a == b
  {
    hide Normalize;
    forall a, b | a in rules && b in rules && a.appName == b.appName ensures a == b {
      assert Key(a) == Key(b);
    }
  }

  // ---------------------------------------------------------------------------
  // Merging a reported split
  // ---------------------------------------------------------------------------

  /** One rule without a binary answers to the name, and another owns the binary. */
  predicate Reported(rules: seq<Rule>, name: string, exePath: string, source: Rule, target: Rule) {
    && FindRule(rules, name) == Some(target) && FindRuleByExe(rules, exePath) == Some(source)
    && target.exePath == None && source.appName != target.appName
  }

  lemma ReportedMeans(rules: seq<Rule>, name: string, exePath: string, source: Rule, target: Rule)
    requires Reported(rules, name, exePath, source, target)
    ensures source in rules && target in rules && source.exePath == Some(exePath)
    ensures SplitOf(rules, name, exePath)
         == Some(RuleSplit(target.appName, source.appName, exePath, set c: Category | Conflict(target, source, c)))
    ensures Unique(rules) ==>
              FindRule(rules, source.appName) == Some(source) && FindRule(rules, target.appName) == Some(target)
    ensures Unique(rules) ==> Key(source) != Key(target)
  {
    hide Normalize, IndexOf, FirstUnder, Conflict, Unique;
    NoRuleUnder(rules, Normalize(name));
    if Unique(rules) {
      FirstUnderUnique(rules, target);
      FirstUnderUnique(rules, source);
    }
  }

  /** Every report comes from such a pair. */
  lemma SplitIsReported(rules: seq<Rule>, name: string, exePath: string)
    ensures SplitOf(rules, name, exePath).Some? ==>
              && FindRuleByExe(rules, exePath).Some? && FindRule(rules, name).Some?
              && Reported(rules, name, exePath, FindRuleByExe(rules, exePath).value, FindRule(rules, name).value)
  {
    hide FindRule, FindRuleByExe;
  }

  /**
   A reported split merges exactly when its disagreements, and only they, are answered, the camera not with a session.
   */
  lemma ReportedSplitMerges(rules: seq<Rule>, name: string, exePath: string, choices: MergeChoices)
    requires Unique(rules) && SplitOf(rules, name, exePath).Some?
    ensures var split := SplitOf(rules, name, exePath).value;
            MergeOutcome(rules, split.exeRule, split.nameRule, choices).Merged?
            <==> choices.camera != Some(WhileInUse)
                 && forall c :: choices.Get(c).Some? <==> c in split.conflicts
  {
    hide FindRule, FindRuleByExe, MergeOutcome, SplitOf, Unique;
    SplitIsReported(rules, name, exePath);
    var source, target := FindRuleByExe(rules, exePath).value, FindRule(rules, name).value;
    ReportedMeans(rules, name, exePath, source, target);
    MergesExactlyWhen(rules, source.appName, target.appName, choices);
    assert forall c :: Conflict(source, target, c) <==> Conflict(target, source, c);
  }

  /** The one answer the merged rule gives where nobody disagreed is the one that was there. */
  predicate OpinionsKept(source: Rule, target: Rule, merged: Rule, choices: MergeChoices) {
    forall c ::
      && (source.Opinion(c).Some? && !Conflict(source, target, c) ==> merged.Opinion(c) == source.Opinion(c))
      && (target.Opinion(c).Some? && !Conflict(source, target, c) ==> merged.Opinion(c) == target.Opinion(c))
      && (source.Opinion(c).None? && target.Opinion(c).None? ==> merged.Opinion(c).None?)
      && (Conflict(source, target, c) ==>
            merged.Opinion(c) == match c
                                 case Microphone => choices.microphone
                                 case Camera => choices.camera
                                 case Monitor => choices.monitor)
  }

  lemma MergedKeepsOpinions(source: Rule, target: Rule, choices: MergeChoices)
    ensures OpinionsKept(source, target, MergedRule(source, target, choices), choices)
  {
    var merged := MergedRule(source, target, choices);
    forall c ensures merged.Opinion(c) == MergedOpinion(source, target, choices, c) {
      match c
      case Microphone =>
      case Camera =>
      case Monitor =>
    }
  }

  /**
   After merging a reported split the list is one shorter, keys are unique, the survivor answers for the declared name
   and owns the binary, the other rule is gone, and every other key is answered by the rule it was answered by.
   */
  lemma MergeAnswers(rules: seq<Rule>, name: string, exePath: string, source: Rule, target: Rule, choices: MergeChoices,
                     key: string)
    requires Unique(rules) && Reported(rules, name, exePath, source, target)
    ensures var after, merged := AfterMerge(rules, source, target, choices), MergedRule(source, target, choices);
            && |after| == |rules| - 1 && Unique(after)
            && merged.appName == target.appName && merged.exePath == Some(exePath)
            && OpinionsKept(source, target, merged, choices)
            && FirstUnder(after, key) == if key == Key(target) then Some(merged)
                                         else if key == Key(source) then None else FirstUnder(rules, key)
  {
    hide Key, FirstUnder, Unique, Reported, AfterMerge, MergedOpinion, OpinionsKept;
    ReportedMeans(rules, name, exePath, source, target);
    assert target.exePath == None by {
      ReportedHasNoBinary(rules, name, exePath, source, target);
    }
    MergeShape(rules, source, target, choices);
    MergedKeepsOpinions(source, target, choices);
    MergeFirstUnder(rules, source, target, choices, key);
  }

  lemma ReportedHasNoBinary(rules: seq<Rule>, name: string, exePath: string, source: Rule, target: Rule)
    requires Reported(rules, name, exePath, source, target)
    ensures target.exePath == None && source.appName != target.appName
  {
    hide FindRule, FindRuleByExe;
  }

  lemma MergeFirstUnder(rules: seq<Rule>, source: Rule, target: Rule, choices: MergeChoices, key: string)
    requires Unique(rules) && source in rules && target in rules && source.appName != target.appName
    requires Key(source) != Key(target)
    ensures FirstUnder(AfterMerge(rules, source, target, choices), key)
         == if key == Key(target) then Some(MergedRule(source, target, choices))
            else if key == Key(source) then None else FirstUnder(rules, key)
  {
    hide Normalize, FirstUnder, AfterMerge, MergedOpinion, Unique;
    var after, merged := AfterMerge(rules, source, target, choices), MergedRule(source, target, choices);
    MergeShape(rules, source, target, choices);
    assert Key(merged) == Key(target);
    NoRuleUnder(after, key);
    NoRuleUnder(rules, key);
    if key == Key(target) {
      FirstUnderUnique(after, merged);
    } else if FirstUnder(after, key).Some? {
      var r := FirstUnder(after, key).value;
      assert r in rules && r != source;
      FirstUnderUnique(rules, r);
      if key == Key(source) {
        UniqueKeys(rules, r, source);
      }
    } else if key != Key(source) {
      forall r | r in rules ensures Key(r) != key {
        assert r in after || r == source || r == target;
      }
    }
  }

  lemma UniqueKeys(rules: seq<Rule>, a: Rule, b: Rule)
    requires Unique(rules) && a in rules && b in rules && Key(a) == Key(b)
    ensures a == b
  {
    hide Key;
  }

  /** Once merged, no observation reports the surviving rule again. */
  lemma MergedSplitIsGone(rules: seq<Rule>, name: string, exePath: string, source: Rule, target: Rule,
                          choices: MergeChoices, observed: seq<(string, string)>)
    requires Unique(rules) && Reported(rules, name, exePath, source, target)
    ensures forall s | s in FindRuleSplits(AfterMerge(rules, source, target, choices), observed) ::
              s.nameRule != target.appName
  {
    hide Normalize, FirstUnder, Unique, Reported, FindRule, FindRuleByExe, SplitOf, AfterMerge, MergedRule;
    hide OpinionsKept;
    var after, merged := AfterMerge(rules, source, target, choices), MergedRule(source, target, choices);
    MergeAnswers(rules, name, exePath, source, target, choices, Key(target));
    FindRuleIsFirst(after, target.appName);
    forall o | o in observed && SplitOf(after, o.0, o.1).Some?
      ensures SplitOf(after, o.0, o.1).value.nameRule != target.appName
    {
      SplitIsReported(after, o.0, o.1);
      var a, b := FindRuleByExe(after, o.1).value, FindRule(after, o.0).value;
      ReportedMeans(after, o.0, o.1, a, b);
      ReportedHasNoBinary(after, o.0, o.1, a, b);
    }
  }

  lemma FindRuleIsFirst(rules: seq<Rule>, name: string)
    ensures FindRule(rules, name) == FirstUnder(rules, Normalize(name))
  {
    hide Normalize, FirstUnder;
  }

  /** Another rule for the same binary grants. */
  predicate OtherGrants(rules: seq<Rule>, source: Rule, granted: Rule -> bool, path: string) {
    exists r | r in rules && r != source :: granted(r) && r.exePath == Some(path)
  }

  /**
   A kernel allowlist changes by at most the merged binary. That binary is on it afterwards exactly when the merged
   rule, or a third rule for the same binary, grants.
   */
  lemma MergeAllowlists(rules: seq<Rule>, source: Rule, target: Rule, choices: MergeChoices,
                        granted: Rule -> bool, exePath: string, path: string)
    requires Unique(rules) && source in rules && target in rules && source.appName != target.appName
    requires source.exePath == Some(exePath) && target.exePath == None
    ensures var after, merged := AfterMerge(rules, source, target, choices), MergedRule(source, target, choices);
            path in Allowlist(after, granted)
            <==> if path == exePath then granted(merged) || OtherGrants(rules, source, granted, exePath)
                 else path in Allowlist(rules, granted)
  {
    hide Unique, AfterMerge, Allowlist, MergedOpinion;
    var after, merged := AfterMerge(rules, source, target, choices), MergedRule(source, target, choices);
    MergeShape(rules, source, target, choices);
    AllowlistMeans(rules, granted);
    AllowlistMeans(after, granted);
    assert merged in after;
  }

  /** What a merge can add to the kernel's lists: the merged binary, and only where the merged rule says allow. */
  lemma MergeGainsOnlyTheMergedBinary(rules: seq<Rule>, name: string, exePath: string, source: Rule, target: Rule,
                                      choices: MergeChoices, path: string)
    requires Unique(rules) && Reported(rules, name, exePath, source, target)
    ensures var after, merged := AfterMerge(rules, source, target, choices), MergedRule(source, target, choices);
            && (path in SteadyCameraAllowlist(after) && path !in SteadyCameraAllowlist(rules) ==>
                  path == exePath && merged.camera == Some(Allow))
            && (path in AudioAllowlist(after) && path !in AudioAllowlist(rules) ==>
                  path == exePath && merged.microphone == Some(Allow))
  {
    hide Unique, Reported, AfterMerge, Allowlist, MergedRule, OtherGrants;
    ReportedMeans(rules, name, exePath, source, target);
    ReportedHasNoBinary(rules, name, exePath, source, target);
    MergeAllowlists(rules, source, target, choices, (r: Rule) => r.camera == Some(Allow), exePath, path);
    MergeAllowlists(rules, source, target, choices, r => AudioGranted(r), exePath, path);
    OthersWereListed(rules, source, (r: Rule) => r.camera == Some(Allow), exePath);
    OthersWereListed(rules, source, r => AudioGranted(r), exePath);
  }

  lemma OthersWereListed(rules: seq<Rule>, source: Rule, granted: Rule -> bool, path: string)
    ensures OtherGrants(rules, source, granted, path) ==> path in Allowlist(rules, granted)
  {
    hide Allowlist;
    AllowlistMeans(rules, granted);
  }

  // ---------------------------------------------------------------------------
  // Any run of edits
  // ---------------------------------------------------------------------------

  datatype Edit =
    | Set(name: string, category: Category, permission: Permission)
    | SetExe(exeName: string, path: string, exists_: string -> bool)
    | Remove(removed: string)
    | Import(planned: seq<Rule>)
    | Merge(from: string, into: string, choices: MergeChoices)

  function AfterEdit(rules: seq<Rule>, e: Edit): seq<Rule> {
    match e
    case Set(name, c, p) => if Refused(name, c, p) then rules else AfterSet(rules, Sanitize(name).value, c, p)
    case SetExe(name, path, exists_) => AfterSetExe(rules, name, path, exists_)
    case Remove(name) => AfterRemove(rules, name)
    case Import(planned) => AfterImport(rules, planned)
    case Merge(from, into, choices) =>
      var r := MergeOutcome(rules, from, into, choices);
      if r.Merged? then r.rules else rules
  }

  function AfterEdits(rules: seq<Rule>, edits: seq<Edit>): seq<Rule> {
    if edits == [] then rules else AfterEdit(AfterEdits(rules, edits[..|edits| - 1]), edits[|edits| - 1])
  }

  lemma EditKeepsUnique(rules: seq<Rule>, e: Edit)
    requires Unique(rules)
    ensures Unique(AfterEdit(rules, e))
  {
    hide Normalize, IndexOf, Sanitize, AfterSet, AfterRemove, AfterImport, AfterMerge, RefusedAmong;
    match e {
      case Set(name, c, p) =>
        if !Refused(name, c, p) {
          SetKeepsUnique(rules, name, c, p);
        }
      case SetExe(name, path, exists_) =>
      case Remove(name) => RemoveShape(rules, name);
      case Import(planned) => ImportOnlyAdds(rules, planned);
      case Merge(from, into, choices) =>
        var r := MergeOutcome(rules, from, into, choices);
        if r.Merged? {
          NoRuleUnder(rules, Normalize(from));
          NoRuleUnder(rules, Normalize(into));
          MergeShape(rules, FindRule(rules, from).value, FindRule(rules, into).value, choices);
        }
    }
  }

  /** However the rules are edited, starting from none, no two of them ever answer to one normalised name. */
  lemma {:induction false} EditsKeepUnique(rules: seq<Rule>, edits: seq<Edit>)
    requires Unique(rules)
    ensures Unique(AfterEdits(rules, edits))
  {
    hide Unique, AfterEdit;
    if edits != [] {
      EditsKeepUnique(rules, edits[..|edits| - 1]);
      EditKeepsUnique(AfterEdits(rules, edits[..|edits| - 1]), edits[|edits| - 1]);
    }
  }

  /** One edit, by whichever operation it is. */
  method Apply(config: Config, e: Edit)
    modifies config
    ensures config.rules == AfterEdit(old(config.rules), e)
    ensures config.defaultAction == old(config.defaultAction)
  {
    hide Normalize, AfterSet, AfterRemove, AfterImport, MergeOutcome, Sanitize;
    match e {
      case Set(name, c, p) => var ok := config.SetRule(name, c, p);
      case SetExe(name, path, exists_) => var result := config.SetRuleExe(name, path, exists_);
      case Remove(name) => var removed := config.RemoveRule(name);
      case Import(planned) => var added := config.ApplyPreset(planned);
      case Merge(from, into, choices) =>
        var r := MergeRules(config.rules, from, into, choices);
        if r.Merged? {
          config.rules := r.rules;
        }
    }
  }

  /** Edit after edit, whatever the operations: from rules with unique keys to rules with unique keys. */
  method ApplyAll(config: Config, edits: seq<Edit>)
    requires Unique(config.rules)
    modifies config
    ensures config.rules == AfterEdits(old(config.rules), edits)
    ensures Unique(config.rules)
  {
    hide AfterEdit, Unique;
    ghost var rules := config.rules;
    assert edits[..0] == [];
    for i := 0 to |edits|
      invariant config.rules == AfterEdits(rules, edits[..i])
    {
      assert edits[..i + 1][..i] == edits[..i];
      Apply(config, edits[i]);
    }
    assert edits[..|edits|] == edits;
    EditsKeepUnique(rules, edits);
  }
}
