/** What happens to the links that need a decision: grouping, the policy, and each link's fate. */
module Enforcement {
  import opened Common
  import opened Rules
  import opened Graph
  import opened Ledger

  // ---------------------------------------------------------------------------
  // Groups
  // ---------------------------------------------------------------------------

  type Match = (U32, LinkMatch)

  datatype LinkGroup = LinkGroup(linkIds: seq<U32>, m: LinkMatch)

  /** One decision for one application on one device: category, device node and stream node agree. */
  predicate Together(a: LinkMatch, b: LinkMatch) {
    && a.device.category == b.device.category && a.device.nodeName == b.device.nodeName
    && a.stream.nodeId == b.stream.nodeId
  }

  /** Position of the first group a match belongs to, or the length. */
  function GroupOf(groups: seq<LinkGroup>, m: LinkMatch, i: nat): (r: nat)
    requires i <= |groups|
    ensures i <= r <= |groups| && (r < |groups| ==> Together(groups[r].m, m))
    ensures forall j | i <= j < r :: !Together(groups[j].m, m)
    decreases |groups| - i
  {
    if i == |groups| || Together(groups[i].m, m) then i else GroupOf(groups, m, i + 1)
  }

  function Joined(groups: seq<LinkGroup>, x: Match): seq<LinkGroup> {
    var i := GroupOf(groups, x.1, 0);
    if i < |groups| then groups[i := LinkGroup(groups[i].linkIds + [x.0], groups[i].m)]
    else groups + [LinkGroup([x.0], x.1)]
  }

  function Grouped(matches: seq<Match>): seq<LinkGroup> {
    if matches == [] then [] else Joined(Grouped(matches[..|matches| - 1]), matches[|matches| - 1])
  }

  method GroupLinks(matches: seq<Match>) returns (groups: seq<LinkGroup>)
    ensures groups == Grouped(matches)
  {
    groups := [];
    assert matches[..0] == [];
    for k := 0 to |matches|
      invariant groups == Grouped(matches[..k])
    {
      assert matches[..k + 1][..k] == matches[..k];
      var i := GroupOf(groups, matches[k].1, 0);
      if i < |groups| {
        groups := groups[i := LinkGroup(groups[i].linkIds + [matches[k].0], groups[i].m)];
      } else {
        groups := groups + [LinkGroup([matches[k].0], matches[k].1)];
      }
    }
    assert matches[..|matches|] == matches;
  }

  /** The ids of the matches that belong together with `m`, in order. */
  function IdsWith(matches: seq<Match>, m: LinkMatch): seq<U32> {
    if matches == [] then []
    else
      var front, x := IdsWith(matches[..|matches| - 1], m), matches[|matches| - 1];
      if Together(m, x.1) then front + [x.0] else front
  }

  /** The groups are the classes: each holds all the ids of its class, in order, no two overlap, none is missing. */
  ghost predicate AreClasses(groups: seq<LinkGroup>, matches: seq<Match>) {
    && (forall i | 0 <= i < |groups| :: groups[i].linkIds == IdsWith(matches, groups[i].m))
    && (forall i, j | 0 <= i < j < |groups| :: !Together(groups[i].m, groups[j].m))
    && (forall x | x in matches :: exists i :: 0 <= i < |groups| && Together(groups[i].m, x.1))
  }

  /** A group is decided by one of its own matches. */
  ghost predicate AreMembers(groups: seq<LinkGroup>, matches: seq<Match>) {
    forall i | 0 <= i < |groups| :: IsMember(matches, groups[i].m)
  }

  ghost predicate IsMember(matches: seq<Match>, m: LinkMatch) {
    exists x | x in matches :: x.1 == m
  }

  lemma IdsWithSnoc(front: seq<Match>, x: Match, m: LinkMatch)
    ensures IdsWith(front + [x], m) == if Together(m, x.1) then IdsWith(front, m) + [x.0] else IdsWith(front, m)
  {
    assert (front + [x])[..|front|] == front;
  }

  lemma {:induction false} IdsWithNone(matches: seq<Match>, m: LinkMatch)
    requires forall x | x in matches :: !Together(m, x.1)
    ensures IdsWith(matches, m) == []
  {
    if matches != [] {
      IdsWithNone(matches[..|matches| - 1], m);
    }
  }

  lemma JoinedHoldIds(groups: seq<LinkGroup>, front: seq<Match>, x: Match, i: nat)
    requires AreClasses(groups, front) && i < |Joined(groups, x)|
    ensures Joined(groups, x)[i].linkIds == IdsWith(front + [x], Joined(groups, x)[i].m)
  {
    hide IdsWith;
    var g := GroupOf(groups, x.1, 0);
    if i < |groups| {
      IdsWithSnoc(front, x, groups[i].m);
    } else {
      IdsWithSnoc(front, x, x.1);
      forall y | y in front ensures !Together(x.1, y.1) {
        var j :| 0 <= j < |groups| && Together(groups[j].m, y.1);
      }
      IdsWithNone(front, x.1);
    }
  }

  lemma JoinedCovers(groups: seq<LinkGroup>, front: seq<Match>, x: Match, y: Match)
    requires AreClasses(groups, front) && y in front + [x]
    ensures exists j :: 0 <= j < |Joined(groups, x)| && Together(Joined(groups, x)[j].m, y.1)
  {
    hide IdsWith;
    var after := Joined(groups, x);
    if y in front {
      var j :| 0 <= j < |groups| && Together(groups[j].m, y.1);
      assert after[j].m == groups[j].m;
    } else {
      assert y == x;
      assert Together(after[GroupOf(groups, x.1, 0)].m, y.1);
    }
  }

  lemma JoinedAreClasses(groups: seq<LinkGroup>, front: seq<Match>, x: Match)
    requires AreClasses(groups, front)
    ensures AreClasses(Joined(groups, x), front + [x])
  {
    hide IdsWith;
    var after := Joined(groups, x);
    forall i | 0 <= i < |after| ensures after[i].linkIds == IdsWith(front + [x], after[i].m) {
      JoinedHoldIds(groups, front, x, i);
    }
    forall y | y in front + [x] ensures exists j :: 0 <= j < |after| && Together(after[j].m, y.1) {
      JoinedCovers(groups, front, x, y);
    }
  }

  lemma JoinedAreMembers(groups: seq<LinkGroup>, front: seq<Match>, x: Match)
    requires AreMembers(groups, front)
    ensures AreMembers(Joined(groups, x), front + [x])
  {
    var after := Joined(groups, x);
    forall i | 0 <= i < |after| ensures IsMember(front + [x], after[i].m) {
      if i < |groups| {
        assert IsMember(front, groups[i].m);
        var y :| y in front && y.1 == groups[i].m;
        assert y in front + [x];
      } else {
        assert x in front + [x];
      }
    }
  }

  /** For every list of matches. */
  lemma {:induction false} GroupsAreClasses(matches: seq<Match>)
    ensures AreClasses(Grouped(matches), matches) && AreMembers(Grouped(matches), matches)
  {
    hide AreClasses, AreMembers, Joined;
    if matches == [] {
      NoGroups();
    } else {
      var front, x := matches[..|matches| - 1], matches[|matches| - 1];
      GroupsAreClasses(front);
      JoinedAreClasses(Grouped(front), front, x);
      JoinedAreMembers(Grouped(front), front, x);
      assert front + [x] == matches;
    }
  }

  lemma NoGroups()
    ensures AreClasses([], []) && AreMembers([], [])
  {
  }

  predicate EachIdOnce(matches: seq<Match>) {
    forall i, j | 0 <= i < j < |matches| :: matches[i].0 != matches[j].0
  }

  lemma {:induction false} IdsWithMembers(matches: seq<Match>, m: LinkMatch, id: U32)
    ensures id in IdsWith(matches, m) <==> exists x :: x in matches && x.0 == id && Together(m, x.1)
    ensures EachIdOnce(matches) ==>
              forall i, j | 0 <= i < j < |IdsWith(matches, m)| :: IdsWith(matches, m)[i] != IdsWith(matches, m)[j]
  {
    if matches != [] {
      var front, x := matches[..|matches| - 1], matches[|matches| - 1];
      IdsWithMembers(front, m, id);
      IdsWithMembers(front, m, x.0);
      assert matches == front + [x];
    }
  }

  /** A link is in a group exactly when it belongs together with the group's match. */
  lemma InGroup(groups: seq<LinkGroup>, matches: seq<Match>, x: Match, g: nat)
    requires AreClasses(groups, matches) && EachIdOnce(matches) && x in matches && g < |groups|
    ensures x.0 in groups[g].linkIds <==> Together(groups[g].m, x.1)
  {
    hide IdsWith, EachIdOnce;
    IdsWithMembers(matches, groups[g].m, x.0);
    OnlyOwner(matches, x);
  }

  lemma Owner(groups: seq<LinkGroup>, matches: seq<Match>, x: Match) returns (g: nat)
    requires AreClasses(groups, matches) && x in matches
    ensures g < |groups| && Together(groups[g].m, x.1)
  {
    g :| 0 <= g < |groups| && Together(groups[g].m, x.1);
  }

  lemma Member(groups: seq<LinkGroup>, matches: seq<Match>, g: nat) returns (x: Match)
    requires AreMembers(groups, matches) && g < |groups|
    ensures x in matches && x.1 == groups[g].m
  {
    assert IsMember(matches, groups[g].m);
    x :| x in matches && x.1 == groups[g].m;
  }

  lemma GroupsDiffer(groups: seq<LinkGroup>, matches: seq<Match>, g: nat, h: nat)
    requires AreClasses(groups, matches) && g < h < |groups|
    ensures !Together(groups[g].m, groups[h].m)
  {
  }

  /** Each pending link is in one group... */
  lemma EachLinkInAGroup(matches: seq<Match>, x: Match)
    requires EachIdOnce(matches) && x in matches
    ensures exists g :: 0 <= g < |Grouped(matches)| && x.0 in Grouped(matches)[g].linkIds
  {
    hide Grouped, EachIdOnce, AreClasses, Together;
    GroupsAreClasses(matches);
    var g := Owner(Grouped(matches), matches, x);
    InGroup(Grouped(matches), matches, x, g);
  }

  /** ... in no second one... */
  lemma NoLinkInTwoGroups(matches: seq<Match>, x: Match, g: nat, h: nat)
    requires EachIdOnce(matches) && x in matches && g < h < |Grouped(matches)|
    ensures !(x.0 in Grouped(matches)[g].linkIds && x.0 in Grouped(matches)[h].linkIds)
  {
    hide Grouped, EachIdOnce, AreClasses;
    GroupsAreClasses(matches);
    InGroup(Grouped(matches), matches, x, g);
    InGroup(Grouped(matches), matches, x, h);
    GroupsDiffer(Grouped(matches), matches, g, h);
  }

  /** ... and it shares its group with exactly the links that belong together with it. */
  lemma GroupIsClass(matches: seq<Match>, x: Match, y: Match, g: nat)
    requires EachIdOnce(matches) && x in matches && y in matches && g < |Grouped(matches)|
    requires x.0 in Grouped(matches)[g].linkIds
    ensures y.0 in Grouped(matches)[g].linkIds <==> Together(x.1, y.1)
  {
    hide Grouped, EachIdOnce, AreClasses;
    GroupsAreClasses(matches);
    InGroup(Grouped(matches), matches, x, g);
    InGroup(Grouped(matches), matches, y, g);
  }

  lemma NoIdTwice(matches: seq<Match>, g: nat)
    requires EachIdOnce(matches) && g < |Grouped(matches)|
    ensures forall i, j | 0 <= i < j < |Grouped(matches)[g].linkIds| ::
              Grouped(matches)[g].linkIds[i] != Grouped(matches)[g].linkIds[j]
  {
    hide Grouped, EachIdOnce, IdsWith;
    GroupsAreClasses(matches);
    IdsWithMembers(matches, Grouped(matches)[g].m, 0);
  }

  /** The id sits at this place of this group. */
  predicate Sits(groups: seq<LinkGroup>, id: U32, g: nat, i: nat) {
    g < |groups| && i < |groups[g].linkIds| && groups[g].linkIds[i] == id
  }

  /** In short: each pending link sits in exactly one place. */
  lemma EachLinkOnce(matches: seq<Match>, x: Match)
    requires EachIdOnce(matches) && x in matches
    ensures exists g, i :: Sits(Grouped(matches), x.0, g, i)
                           && forall h, j :: Sits(Grouped(matches), x.0, h, j) ==> h == g && j == i
  {
    hide Grouped, EachIdOnce;
    var groups := Grouped(matches);
    EachLinkInAGroup(matches, x);
    var g :| 0 <= g < |groups| && x.0 in groups[g].linkIds;
    var i :| 0 <= i < |groups[g].linkIds| && groups[g].linkIds[i] == x.0;
    assert Sits(groups, x.0, g, i);
    NoIdTwice(matches, g);
    OnlyGroup(matches, x, g);
    forall h: nat, j: nat | Sits(groups, x.0, h, j) ensures h == g && j == i {
      assert x.0 in groups[h].linkIds;
      assert h == g;
    }
  }

  lemma OnlyOwner(matches: seq<Match>, x: Match)
    requires EachIdOnce(matches) && x in matches
    ensures forall y | y in matches && y.0 == x.0 :: y == x
  {
  }

  // ---------------------------------------------------------------------------
  // The decision
  // ---------------------------------------------------------------------------

  datatype PolicyDecision = Keep | Refuse | AskUser

  /** What the decision on a group sees; between two groups all of it may change. */
  datatype Environment = Environment(
    rules: seq<Rule>, default: Permission, guarded: set<Category>, blockAll: bool, live: (string, Category) -> bool)

  function Evaluate(e: Environment, m: LinkMatch): PolicyDecision {
    if m.device.category !in e.guarded then Keep
    else
      match GetPermission(e.rules, e.default, m.stream.appName, m.device.category)
      case Allow => Keep
      case Deny => Refuse
      case WhileInUse => if e.live(m.stream.appName, m.device.category) then Keep else AskUser
      case Ask => AskUser
  }

  /** Left alone, refused or kept. */
  datatype Fate = Unguarded | Destroyed | Tracked

  function FateOf(e: Environment, m: LinkMatch): Fate {
    if m.device.category !in e.guarded then Unguarded
    else if e.blockAll || Evaluate(e, m) != Keep then Destroyed
    else Tracked
  }

  /** What decides a fate, in the terms of the rules. */
  lemma FateMeans(e: Environment, m: LinkMatch)
    ensures var p := GetPermission(e.rules, e.default, m.stream.appName, m.device.category);
            && (FateOf(e, m) == Unguarded <==> m.device.category !in e.guarded)
            && (FateOf(e, m) == Tracked
                <==> && m.device.category in e.guarded && !e.blockAll
                     && (p == Allow || (p == WhileInUse && e.live(m.stream.appName, m.device.category))))
  {
    hide GetPermission;
  }

  /** A stream node has one description. */
  predicate SameStreams(matches: seq<Match>) {
    forall x, y | x in matches && y in matches && x.1.stream.nodeId == y.1.stream.nodeId :: x.1.stream == y.1.stream
  }

  /** All links of a group share one fate, and it is the fate each of them has by itself. */
  lemma GroupFateIsOwnFate(matches: seq<Match>, x: Match, g: nat, e: Environment)
    requires EachIdOnce(matches) && SameStreams(matches) && x in matches && g < |Grouped(matches)|
    requires x.0 in Grouped(matches)[g].linkIds
    ensures FateOf(e, Grouped(matches)[g].m) == FateOf(e, x.1)
  {
    hide Grouped, GetPermission, EachIdOnce, AreClasses, AreMembers;
    GroupsAreClasses(matches);
    InGroup(Grouped(matches), matches, x, g);
    var y := Member(Grouped(matches), matches, g);
    assert y.1.stream == x.1.stream;
  }

  /** The first group a pending link belongs to is the group it is in, and the only one. */
  lemma OwnerIsFirst(matches: seq<Match>, x: Match)
    requires EachIdOnce(matches) && x in matches
    ensures var g := GroupOf(Grouped(matches), x.1, 0);
            && g < |Grouped(matches)| && x.0 in Grouped(matches)[g].linkIds
            && forall h | 0 <= h < |Grouped(matches)| && x.0 in Grouped(matches)[h].linkIds :: h == g
  {
    hide Grouped, EachIdOnce, AreClasses, Together;
    GroupsAreClasses(matches);
    var g := GroupOf(Grouped(matches), x.1, 0);
    var h := Owner(Grouped(matches), matches, x);
    InGroup(Grouped(matches), matches, x, g);
    OnlyGroup(matches, x, g);
  }

  /** A group names the application of every link in it. */
  lemma GroupNamesApp(matches: seq<Match>, x: Match, g: nat)
    requires EachIdOnce(matches) && SameStreams(matches) && x in matches && g < |Grouped(matches)|
    requires x.0 in Grouped(matches)[g].linkIds
    ensures Grouped(matches)[g].m.stream == x.1.stream
    ensures Grouped(matches)[g].m.device.category == x.1.device.category
  {
    hide Grouped, EachIdOnce, AreClasses, AreMembers;
    GroupsAreClasses(matches);
    InGroup(Grouped(matches), matches, x, g);
    var y := Member(Grouped(matches), matches, g);
    assert y.1.stream == x.1.stream;
  }

  /** What is in a group was matched. */
  lemma Matched(matches: seq<Match>, id: U32, g: nat) returns (x: Match)
    requires EachIdOnce(matches) && g < |Grouped(matches)| && id in Grouped(matches)[g].linkIds
    ensures x in matches && x.0 == id
  {
    hide Grouped, EachIdOnce;
    GroupsAreClasses(matches);
    IdsWithMembers(matches, Grouped(matches)[g].m, id);
    x :| x in matches && x.0 == id && Together(Grouped(matches)[g].m, x.1);
  }

  // ---------------------------------------------------------------------------
  // One update
  // ---------------------------------------------------------------------------

  /**
   What one update does, link by link, under what its own group's decision sees. A link is tracked if and only if its
   category is guarded, not everything is blocked, and the application's permission is to allow, or to allow while in
   use with a session live. It is destroyed if and only if its category is guarded and it is not tracked.
   */
  method Enforce(matches: seq<Match>, env: nat -> Environment) returns (destroyed: seq<U32>, tracked: seq<U32>)
    requires EachIdOnce(matches) && SameStreams(matches)
    ensures forall x, g | x in matches && 0 <= g < |Grouped(matches)| && x.0 in Grouped(matches)[g].linkIds ::
              var e, app, c := env(g), x.1.stream.appName, x.1.device.category;
              var p := GetPermission(e.rules, e.default, app, c);
              && (x.0 in tracked
                  <==> c in e.guarded && !e.blockAll && (p == Allow || (p == WhileInUse && e.live(app, c))))
              && (x.0 in destroyed <==> c in e.guarded && x.0 !in tracked)
    ensures forall id | id in destroyed || id in tracked :: exists x | x in matches :: x.0 == id
  {
    hide Grouped, EachIdOnce, GetPermission, Together, SameStreams;
    var groups := GroupLinks(matches);
    destroyed, tracked := [], [];
    for i := 0 to |groups|
      invariant forall id :: id in destroyed
                  <==> exists g :: 0 <= g < i && FateOf(env(g), groups[g].m) == Destroyed && id in groups[g].linkIds
      invariant forall id :: id in tracked
                  <==> exists g :: 0 <= g < i && FateOf(env(g), groups[g].m) == Tracked && id in groups[g].linkIds
    {
      var e, m := env(i), groups[i].m;
      if m.device.category !in e.guarded {
        continue;
      }
      if e.blockAll {
        destroyed := destroyed + groups[i].linkIds;
        continue;
      }
      match Evaluate(e, m) {
        case Keep => tracked := tracked + groups[i].linkIds;
        case Refuse => destroyed := destroyed + groups[i].linkIds;
        case AskUser => destroyed := destroyed + groups[i].linkIds;
      }
    }
    hide FateOf;
    forall x, g | x in matches && 0 <= g < |groups| && x.0 in groups[g].linkIds
      ensures FateOf(env(g), groups[g].m) == FateOf(env(g), x.1)
      ensures forall h | 0 <= h < |groups| && x.0 in groups[h].linkIds :: h == g
    {
      GroupFateIsOwnFate(matches, x, g, env(g));
      OnlyGroup(matches, x, g);
      FateMeans(env(g), x.1);
    }
    forall id, g | 0 <= g < |groups| && id in groups[g].linkIds ensures exists x | x in matches :: x.0 == id {
      var x := Matched(matches, id, g);
    }
  }

  lemma OnlyGroup(matches: seq<Match>, x: Match, g: nat)
    requires EachIdOnce(matches) && x in matches && g < |Grouped(matches)| && x.0 in Grouped(matches)[g].linkIds
    ensures forall h | 0 <= h < |Grouped(matches)| && x.0 in Grouped(matches)[h].linkIds :: h == g
  {
    hide Grouped, EachIdOnce;
    forall h | 0 <= h < |Grouped(matches)| && x.0 in Grouped(matches)[h].linkIds ensures h == g {
      if h < g {
        NoLinkInTwoGroups(matches, x, h, g);
      } else if g < h {
        NoLinkInTwoGroups(matches, x, g, h);
      }
    }
  }
}
