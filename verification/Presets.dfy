/** Importing a preset: the plan shown first, and what applying it does. */
module Presets {
  import opened Text
  import opened Common
  import opened Names
  import opened Rules

  datatype PresetApp = PresetApp(
    name: string, microphone: Permission, camera: Permission, monitor: Permission, exeCandidates: seq<string>)

  datatype Outcome = Added(exePath: Option<string>) | SkippedRuleExists | SkippedNoBinary | SkippedBadName

  datatype PlanEntry = PlanEntry(key: string, outcome: Outcome, rule: Option<Rule>)

  /** The first candidate that exists. */
  function Resolve(candidates: seq<string>, exists_: string -> bool): (r: Option<string>)
    ensures r.Some? ==> r.value in candidates && exists_(r.value)
    ensures r.None? ==> forall c | c in candidates :: !exists_(c)
  {
    if candidates == [] then None
    else if exists_(candidates[0]) then Some(candidates[0])
    else Resolve(candidates[1..], exists_)
  }

  function PlanOne(app: PresetApp, exists_: string -> bool, hasRule: string -> bool): PlanEntry {
    match Sanitize(app.name)
    case None => PlanEntry(app.name, SkippedBadName, None)
    case Some(key) =>
      var exe := Resolve(app.exeCandidates, exists_);
      if hasRule(key) then PlanEntry(key, SkippedRuleExists, None)
      else if app.camera == Allow && exe.None? then PlanEntry(key, SkippedNoBinary, None)
      else PlanEntry(key, Added(exe), Some(Rule(key, Some(app.microphone), Some(app.camera), Some(app.monitor), exe)))
  }

  function PlanAll(apps: seq<PresetApp>, exists_: string -> bool, hasRule: string -> bool): seq<PlanEntry> {
    if apps == [] then []
    else PlanAll(apps[..|apps| - 1], exists_, hasRule) + [PlanOne(apps[|apps| - 1], exists_, hasRule)]
  }

  method Plan(apps: seq<PresetApp>, exists_: string -> bool, hasRule: string -> bool) returns (entries: seq<PlanEntry>)
    ensures entries == PlanAll(apps, exists_, hasRule)
  {
    entries := [];
    assert apps[..0] == [];
    for i := 0 to |apps|
      invariant entries == PlanAll(apps[..i], exists_, hasRule)
    {
      assert apps[..i + 1][..i] == apps[..i];
      entries := entries + [PlanOne(apps[i], exists_, hasRule)];
    }
    assert apps[..|apps|] == apps;
  }

  /** The rules a plan would write, in order. */
  function Planned(entries: seq<PlanEntry>): seq<Rule> {
    if entries == [] then []
    else
      var front, e := Planned(entries[..|entries| - 1]), entries[|entries| - 1];
      if e.rule.Some? then front + [e.rule.value] else front
  }

  function AddedCount(entries: seq<PlanEntry>): nat {
    if entries == [] then 0
    else AddedCount(entries[..|entries| - 1]) + if entries[|entries| - 1].outcome.Added? then 1 else 0
  }

  /** What may be written for an app with no rule: a usable key, and no camera grant without a binary that exists. */
  predicate Sound(r: Rule, exists_: string -> bool, hasRule: string -> bool) {
    && Key(r) == r.appName && !hasRule(r.appName)
    && r.microphone.Some? && r.camera.Some? && r.monitor.Some?
    && (r.camera == Some(Allow) ==> r.exePath.Some?)
    && (r.exePath.Some? ==> exists_(r.exePath.value))
  }

  lemma {:induction false} PlanIsSound(apps: seq<PresetApp>, exists_: string -> bool, hasRule: string -> bool)
    ensures forall r | r in Planned(PlanAll(apps, exists_, hasRule)) :: Sound(r, exists_, hasRule)
    ensures AddedCount(PlanAll(apps, exists_, hasRule)) == |Planned(PlanAll(apps, exists_, hasRule))|
  {
    hide Normalize, Sanitize;
    if apps != [] {
      var front, app := apps[..|apps| - 1], apps[|apps| - 1];
      PlanIsSound(front, exists_, hasRule);
      SanitizedIsNormal(app.name);
      var all := PlanAll(apps, exists_, hasRule);
      assert all[..|all| - 1] == PlanAll(front, exists_, hasRule);
    }
  }

  predicate DistinctKeys(rs: seq<Rule>) {
    forall i, j | 0 <= i < j < |rs| :: Key(rs[i]) != Key(rs[j])
  }

  predicate HasKey(rs: seq<Rule>, key: string) {
    exists i | 0 <= i < |rs| :: Key(rs[i]) == key
  }

  lemma {:induction false} ImportCount(rules: seq<Rule>, planned: seq<Rule>)
    requires forall r | r in planned :: !HasKey(rules, Key(r))
    ensures |AfterImport(rules, planned)| <= |rules| + |planned|
    ensures |AfterImport(rules, planned)| == |rules| + |planned| <==> DistinctKeys(planned)
    ensures forall key :: HasKey(AfterImport(rules, planned), key) <==> HasKey(rules, key) || HasKey(planned, key)
  {
    hide Normalize, IndexOf;
    if planned != [] {
      var front, r := planned[..|planned| - 1], planned[|planned| - 1];
      assert planned == front + [r];
      ImportCount(rules, front);
      var before := AfterImport(rules, front);
      HasKeyAppend(front, r);
      HasKeyAppend(before, r);
      IndexMeans(before, Key(r));
      assert FindRule(before, r.appName).Some? <==> HasKey(before, Key(r)) by {
        if HasKey(before, Key(r)) {
          var i :| 0 <= i < |before| && Key(before[i]) == Key(r);
        }
      }
      assert r in planned;
    }
  }

  lemma HasKeyAppend(rs: seq<Rule>, r: Rule)
    ensures forall key :: HasKey(rs + [r], key) <==> HasKey(rs, key) || Key(r) == key
  {
    hide Key;
    forall key ensures HasKey(rs + [r], key) <==> HasKey(rs, key) || Key(r) == key {
      if HasKey(rs, key) {
        var i :| 0 <= i < |rs| && Key(rs[i]) == key;
        assert (rs + [r])[i] == rs[i];
      }
      assert (rs + [r])[|rs|] == r;
    }
  }

  /**
   Look before you commit: applying a plan to the configuration it was made for adds exactly as many rules as the
   preview counted, if and only if no two of the added entries share a key. A preset that lists one application twice
   previews one rule too many.
   */
  lemma PreviewMatchesApply(rules: seq<Rule>, apps: seq<PresetApp>, exists_: string -> bool, hasRule: string -> bool)
    requires forall key :: hasRule(key) <==> FindRule(rules, key).Some?
    ensures var plan := PlanAll(apps, exists_, hasRule);
            |AfterImport(rules, Planned(plan))| - |rules| == AddedCount(plan) <==> DistinctKeys(Planned(plan))
  {
    hide FindRule, HasKey, PlanAll, Planned, AddedCount, DistinctKeys, AfterImport, Key;
    PlanIsSound(apps, exists_, hasRule);
    var planned := Planned(PlanAll(apps, exists_, hasRule));
    forall r | r in planned ensures !HasKey(rules, Key(r)) {
      assert !hasRule(r.appName);
      NoRuleNoKey(rules, r);
    }
    ImportCount(rules, planned);
  }

  lemma NoRuleNoKey(rules: seq<Rule>, r: Rule)
    requires FindRule(rules, r.appName).None?
    ensures !HasKey(rules, Key(r))
  {
    hide Normalize, IndexOf;
    IndexMeans(rules, Key(r));
  }

  // ---------------------------------------------------------------------------
  // What a preset writes
  // ---------------------------------------------------------------------------

  /** The first of the paths that exists. */
  ghost predicate FirstExisting(paths: seq<string>, exists_: string -> bool, path: Option<string>) {
    match path
    case None => forall c | c in paths :: !exists_(c)
    case Some(p) =>
      exists i | 0 <= i < |paths| :: paths[i] == p && exists_(p) && forall j | 0 <= j < i :: !exists_(paths[j])
  }

  lemma {:induction false} ResolveIsFirst(paths: seq<string>, exists_: string -> bool)
    ensures FirstExisting(paths, exists_, Resolve(paths, exists_))
  {
    if paths != [] && !exists_(paths[0]) {
      ResolveIsFirst(paths[1..], exists_);
      var r := Resolve(paths[1..], exists_);
      if r.Some? {
        var i :| 0 <= i < |paths[1..]| && paths[1..][i] == r.value && exists_(r.value)
                 && forall j | 0 <= j < i :: !exists_(paths[1..][j]);
        assert paths[i + 1] == r.value;
        assert forall j | 0 < j < i + 1 :: paths[j] == paths[1..][j - 1];
      }
    }
  }

  /** The rule that an application of a preset asks for: its three permissions and the first binary that exists. */
  ghost predicate AsksFor(app: PresetApp, exists_: string -> bool, r: Rule) {
    && Sanitize(app.name) == Some(r.appName)
    && r.microphone == Some(app.microphone) && r.camera == Some(app.camera) && r.monitor == Some(app.monitor)
    && FirstExisting(app.exeCandidates, exists_, r.exePath)
  }

  /**
   What happens to one application. It is skipped if its name is unusable, has a rule, or it would be let at the camera
   with no binary to tell it by; otherwise exactly its rule is planned.
   */
  lemma PlannedFor(app: PresetApp, exists_: string -> bool, hasRule: string -> bool)
    ensures var e := PlanOne(app, exists_, hasRule);
            && (e.outcome == SkippedBadName <==> Sanitize(app.name).None?)
            && (e.outcome == SkippedRuleExists <==> Sanitize(app.name).Some? && hasRule(Sanitize(app.name).value))
            && (e.outcome == SkippedNoBinary
                <==> && Sanitize(app.name).Some? && !hasRule(Sanitize(app.name).value) && app.camera == Allow
                     && forall c | c in app.exeCandidates :: !exists_(c))
            && (e.rule.Some? <==> e.outcome.Added?)
            && (e.rule.Some? ==> AsksFor(app, exists_, e.rule.value) && e.outcome.exePath == e.rule.value.exePath)
  {
    hide Sanitize, FirstExisting;
    ResolveIsFirst(app.exeCandidates, exists_);
  }

  /** The rules a plan writes are those of the applications that were not skipped, in order. */
  lemma {:induction false} PlannedAre(apps: seq<PresetApp>, exists_: string -> bool, hasRule: string -> bool, r: Rule)
    ensures r in Planned(PlanAll(apps, exists_, hasRule))
       <==> exists app | app in apps :: PlanOne(app, exists_, hasRule).rule == Some(r)
  {
    hide PlanOne;
    if apps != [] {
      var front, app := apps[..|apps| - 1], apps[|apps| - 1];
      PlannedAre(front, exists_, hasRule, r);
      var all := PlanAll(apps, exists_, hasRule);
      assert all[..|all| - 1] == PlanAll(front, exists_, hasRule);
      assert forall a :: a in apps <==> a in front || a == app;
    }
  }

  /**
   After an import every planned rule answers for its name: with the application's own permission in each category, and
   with its binary.
   */
  lemma ImportAnswers(rules: seq<Rule>, apps: seq<PresetApp>, exists_: string -> bool, hasRule: string -> bool,
                      app: PresetApp, default: Permission)
    requires forall key :: hasRule(key) <==> FindRule(rules, key).Some?
    requires app in apps && PlanOne(app, exists_, hasRule).outcome.Added?
    requires DistinctKeys(Planned(PlanAll(apps, exists_, hasRule)))
    ensures var after, name := AfterImport(rules, Planned(PlanAll(apps, exists_, hasRule))), Sanitize(app.name).value;
            && GetPermission(after, default, name, Microphone) == app.microphone
            && GetPermission(after, default, name, Camera) == app.camera
            && GetPermission(after, default, name, Monitor) == app.monitor
            && FindRule(after, name).Some?
            && FirstExisting(app.exeCandidates, exists_, FindRule(after, name).value.exePath)
  {
    hide PlanOne, PlanAll, Planned, FirstUnder, AfterImport, Normalize, Sanitize, FirstExisting;
    var planned, r := Planned(PlanAll(apps, exists_, hasRule)), PlanOne(app, exists_, hasRule).rule;
    PlannedFor(app, exists_, hasRule);
    PlannedAre(apps, exists_, hasRule, r.value);
    PlanIsSound(apps, exists_, hasRule);
    ImportAdds(rules, planned, Key(r.value));
    OnlyUnder(planned, r.value);
    assert !hasRule(r.value.appName);
  }

  lemma OnlyUnder(planned: seq<Rule>, r: Rule)
    requires DistinctKeys(planned) && r in planned
    ensures FirstUnder(planned, Key(r)) == Some(r)
  {
    hide Key;
    var i :| 0 <= i < |planned| && planned[i] == r;
    FirstUnique(Keys(planned), Key(r), i);
  }
}
