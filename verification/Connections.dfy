/**
 The connections the daemon remembers for allowed links, pruned by id only, against the links that are really there.
 A link is told from another one under the same id by the update that reported the id new.
 */
module Connections {
  import opened Text
  import opened Common
  import opened Graph
  import opened Ledger
  import opened GraphRun
  import opened Rules
  import opened Enforcement
  import opened Pipeline
  import S = Sessions

  /** One update of the graph, and what the decision on each group of it sees. */
  datatype Turn = Turn(u: Update, env: nat -> Environment)

  function LinksAfterTurn(w: World, t: Turn): map<U32, PwLink> {
    GraphAfter(w, t.u).links
  }

  function NewIds(w: World, t: Turn): seq<U32> {
    ContextOf(w, t.u).newIds
  }

  // ---------------------------------------------------------------------------
  // What one turn allows
  // ---------------------------------------------------------------------------

  function ConnectionOf(m: LinkMatch): S.Connection {
    S.Connection(m.stream.appName, m.device.category)
  }

  /** Every link of a group that is kept becomes a connection, group after group. */
  function Kept(groups: seq<LinkGroup>, env: nat -> Environment): map<U32, S.Connection> {
    if |groups| == 0 then map[]
    else
      var front, n := Kept(groups[..|groups| - 1], env), |groups| - 1;
      if FateOf(env(n), groups[n].m) == Tracked
      then front + map id | id in groups[n].linkIds :: ConnectionOf(groups[n].m)
      else front
  }

  function MatchesIn(w: World, t: Turn): seq<Match> {
    MatchesOf(Result(w, t.u).pending)
  }

  function Allowed(w: World, t: Turn): map<U32, S.Connection> {
    Kept(Grouped(MatchesIn(w, t)), t.env)
  }

  predicate KeptIn(groups: seq<LinkGroup>, env: nat -> Environment, g: nat, id: U32) {
    g < |groups| && FateOf(env(g), groups[g].m) == Tracked && id in groups[g].linkIds
  }

  lemma {:induction false} KeptIs(groups: seq<LinkGroup>, env: nat -> Environment, id: U32)
    ensures id in Kept(groups, env) <==> exists g: nat :: KeptIn(groups, env, g, id)
    ensures id in Kept(groups, env) ==>
              exists g: nat :: KeptIn(groups, env, g, id) && Kept(groups, env)[id] == ConnectionOf(groups[g].m)
  {
    hide FateOf;
    if groups != [] {
      var front, n := groups[..|groups| - 1], |groups| - 1;
      KeptIs(front, env, id);
      if g: nat :| KeptIn(front, env, g, id) && (id in Kept(front, env) ==>
                     Kept(front, env)[id] == ConnectionOf(front[g].m)) {
        assert KeptIn(groups, env, g, id);
      }
      if g: nat :| KeptIn(groups, env, g, id) && g < n {
        assert KeptIn(front, env, g, id);
      }
      assert KeptIn(groups, env, n, id) <==> FateOf(env(n), groups[n].m) == Tracked && id in groups[n].linkIds;
    }
  }

  /** The fate of one match, as its group decides it. */
  function FateIn(matches: seq<Match>, env: nat -> Environment, m: LinkMatch): Fate {
    FateOf(env(GroupOf(Grouped(matches), m, 0)), m)
  }

  /** The links kept are those whose own fate is to be tracked, each as a connection of its own application. */
  lemma KeptByOwnFate(matches: seq<Match>, env: nat -> Environment, x: Match)
    requires EachIdOnce(matches) && SameStreams(matches) && x in matches
    ensures var kept := Kept(Grouped(matches), env);
            && (x.0 in kept <==> FateIn(matches, env, x.1) == Tracked)
            && (x.0 in kept ==> kept[x.0] == ConnectionOf(x.1))
  {
    hide Grouped, EachIdOnce, FateOf, SameStreams, Kept;
    var groups := Grouped(matches);
    var g := GroupOf(groups, x.1, 0);
    OwnerIsFirst(matches, x);
    KeptIs(groups, env, x.0);
    GroupFateIsOwnFate(matches, x, g, env(g));
    GroupNamesApp(matches, x, g);
    assert KeptIn(groups, env, g, x.0) <==> FateIn(matches, env, x.1) == Tracked;
  }

  /** What the ledger hands out for the link now under this id. */
  function DecisionOn(w: World, t: Turn, id: U32): Option<Pending>
    requires id in LinksAfterTurn(w, t)
  {
    Decision(Prior(EntriesBefore(w, t.u), id), LinksAfterTurn(w, t)[id], ContextOf(w, t.u))
  }

  lemma PartsOf(us: seq<Update>, u: Update)
    requires LegalRun(us) && Legal(GraphRun.After(us), u)
    ensures var w := GraphRun.After(us);
            && UniqueIds(u.order) && Keyed(GraphAfter(w, u).links)
            && Result(w, u).pending == Decisions(EntriesBefore(w, u), u.order, ContextOf(w, u))
  {
    hide Result, Decisions, Applied, ContextOf, EntriesBefore;
    EveryRunIsAccounted(us);
    NextParts(GraphRun.After(us), u);
  }

  lemma HandedAs(us: seq<Update>, t: Turn, id: U32)
    requires LegalRun(us) && Legal(GraphRun.After(us), t.u) && id in LinksAfterTurn(GraphRun.After(us), t)
    ensures var w := GraphRun.After(us);
            forall m :: (id, m) in MatchesIn(w, t)
                   <==> DecisionOn(w, t, id).Some? && DecisionOn(w, t, id).value.linkMatch == m
  {
    hide Result, EntriesBefore, ContextOf, GraphAfter, Decision, Decisions, Accounted;
    var w := GraphRun.After(us);
    var es, c, l := EntriesBefore(w, t.u), ContextOf(w, t.u), LinksAfterTurn(w, t)[id];
    var pending := Result(w, t.u).pending;
    PartsOf(us, t.u);
    DecisionsAre(es, t.u.order, c);
    DecidedIff(Prior(es, id), l, c);
    assert l in t.u.order && l.id == id;
    forall p | p in pending && p.key.id == id ensures Decision(Prior(es, id), l, c) == Some(p) {
      OnlyItsOwn(es, t.u.order, c, l, p);
    }
    MatchesHold(pending, id);
  }

  /** What the decision on a match sees: its group's turn. */
  function EnvFor(w: World, t: Turn, m: LinkMatch): Environment {
    t.env(GroupOf(Grouped(MatchesIn(w, t)), m, 0))
  }

  /** The category is guarded, not everything is blocked, and the application may use the device now. */
  predicate MayUse(e: Environment, m: LinkMatch) {
    var p := GetPermission(e.rules, e.default, m.stream.appName, m.device.category);
    && m.device.category in e.guarded && !e.blockAll
    && (p == Allow || (p == WhileInUse && e.live(m.stream.appName, m.device.category)))
  }

  /**
   In every turn of every run: a link is allowed if and only if the ledger hands it out and the application may use the
   device, and then the connection is its own.
   */
  lemma AllowedIff(us: seq<Update>, t: Turn, id: U32)
    requires LegalRun(us) && Legal(GraphRun.After(us), t.u) && id in LinksAfterTurn(GraphRun.After(us), t)
    ensures var w := GraphRun.After(us);
            var d := DecisionOn(w, t, id);
            && (id in Allowed(w, t) <==> d.Some? && MayUse(EnvFor(w, t, d.value.linkMatch), d.value.linkMatch))
            && (id in Allowed(w, t) ==>
                  && Allowed(w, t)[id].appName == d.value.linkMatch.stream.appName
                  && Allowed(w, t)[id].category == d.value.linkMatch.device.category)
  {
    hide MatchesIn, DecisionOn, FateIn, MayUse, EnvFor, Kept, Grouped, LegalRun, Legal, EachIdOnce, SameStreams;
    var w := GraphRun.After(us);
    var matches := MatchesIn(w, t);
    HandedAs(us, t, id);
    CanBeEnforced(us, t);
    if DecisionOn(w, t, id).Some? {
      var m := DecisionOn(w, t, id).value.linkMatch;
      KeptByOwnFate(matches, t.env, (id, m));
      FateInMeans(w, t, m);
    } else {
      KeptIs(Grouped(matches), t.env, id);
      if id in Allowed(w, t) {
        var g: nat :| KeptIn(Grouped(matches), t.env, g, id);
        var x := Matched(matches, id, g);
      }
    }
  }

  lemma FateInMeans(w: World, t: Turn, m: LinkMatch)
    ensures FateIn(MatchesIn(w, t), t.env, m) == Tracked <==> MayUse(EnvFor(w, t, m), m)
  {
    hide FateOf, MatchesIn, Grouped;
    FateMeans(EnvFor(w, t, m), m);
  }

  lemma CanBeEnforced(us: seq<Update>, t: Turn)
    requires LegalRun(us) && Legal(GraphRun.After(us), t.u)
    ensures EachIdOnce(MatchesIn(GraphRun.After(us), t)) && SameStreams(MatchesIn(GraphRun.After(us), t))
  {
    hide Legal, Result, MatchesOf;
    var all := us + [t.u];
    assert all[..|us|] == us;
    PendingCanBeEnforced(all);
  }

  // ---------------------------------------------------------------------------
  // Runs
  // ---------------------------------------------------------------------------

  /** A remembered connection, with the turn in which the link it was remembered for was reported new. */
  datatype Remembered = Remembered(connection: S.Connection, born: nat)

  /**
   The daemon after so many turns: its graph and ledger, the connections it remembers by id, and as bookkeeping the turn
   in which each link of the graph was last reported new.
   */
  datatype Daemon = Daemon(w: World, turns: nat, born: map<U32, nat>, active: map<U32, Remembered>)

  function BornAfter(d: Daemon, t: Turn): map<U32, nat> {
    map id | id in LinksAfterTurn(d.w, t) ::
      if id in d.born && id !in NewIds(d.w, t) then d.born[id] else d.turns
  }

  /** Allowed links are remembered under their ids, overwriting; then ids that left the graph are dropped. */
  function Turned(d: Daemon, t: Turn): map<U32, Remembered> {
    var allowed := Allowed(d.w, t);
    map id | id in d.active.Keys + allowed.Keys && id in LinksAfterTurn(d.w, t) ::
      if id in allowed then Remembered(allowed[id], BornAfter(d, t)[id]) else d.active[id]
  }

  function TurnedTo(d: Daemon, t: Turn): Daemon {
    Daemon(Next(d.w, t.u), d.turns + 1, BornAfter(d, t), Turned(d, t))
  }

  function After(turns: seq<Turn>): Daemon {
    if |turns| == 0 then Daemon(START, 0, map[], map[])
    else TurnedTo(After(turns[..|turns| - 1]), turns[|turns| - 1])
  }

  /** As the tracker sees them: connections by id. */
  function Seen(active: map<U32, Remembered>): map<nat, S.Connection> {
    map id: U32 | id in active :: id as nat := active[id].connection
  }

  /** The connection is for the link now under its id. */
  predicate Belongs(d: Daemon, id: U32) {
    id in d.active && id in d.born && d.active[id].born == d.born[id]
  }

  /** The connection is for a link that is gone. */
  predicate Leftover(d: Daemon, id: U32) {
    id in d.active && !Belongs(d, id)
  }

  /** The link is still there, or another one under its id is, and it was not allowed in this turn. */
  predicate Unallowed(d: Daemon, t: Turn, id: U32) {
    id in LinksAfterTurn(d.w, t) && id !in Allowed(d.w, t)
  }

  /** The id of a connected link is reported new, and the newcomer is not allowed. */
  predicate Replaced(d: Daemon, t: Turn, id: U32) {
    id in d.active && id in NewIds(d.w, t) && Unallowed(d, t, id)
  }

  function Updates(turns: seq<Turn>): seq<Update> {
    seq(|turns|, i requires 0 <= i < |turns| => turns[i].u)
  }

  lemma {:induction false} WorldIs(turns: seq<Turn>)
    ensures After(turns).w == GraphRun.After(Updates(turns))
  {
    hide Next, Turned, BornAfter;
    if |turns| != 0 {
      WorldIs(turns[..|turns| - 1]);
      assert Updates(turns)[..|turns| - 1] == Updates(turns[..|turns| - 1]);
    }
  }

  /**
   Why a link is not allowed, in any turn of a run: it is on no protected device, or the ledger takes it for a decided
   one, or its category is not guarded, or the application may not use the device.
   */
  lemma UnallowedIff(turns: seq<Turn>, t: Turn, id: U32)
    requires LegalRun(Updates(turns)) && Legal(After(turns).w, t.u) && id in LinksAfterTurn(After(turns).w, t)
    ensures var w := After(turns).w;
            var l, d := LinksAfterTurn(w, t)[id], DecisionOn(w, t, id);
            && (d.None? <==> !Protected(l, ContextOf(w, t.u)) || TakenForDecided(Prior(EntriesBefore(w, t.u), id), l))
            && (Unallowed(After(turns), t, id)
                <==> d.None? || !MayUse(EnvFor(w, t, d.value.linkMatch), d.value.linkMatch))
  {
    hide After, GraphRun.After, LegalRun, Legal, ContextOf, EntriesBefore, GraphAfter;
    hide MatchesIn, Kept, MayUse, EnvFor, Decision;
    var w := After(turns).w;
    WorldIs(turns);
    AllowedIff(Updates(turns), t, id);
    DecidedIff(Prior(EntriesBefore(w, t.u), id), LinksAfterTurn(w, t)[id], ContextOf(w, t.u));
  }

  /** Births are of the graph's links, and past. */
  ghost predicate Dated(d: Daemon) {
    && d.born.Keys == d.w.graph.links.Keys
    && (forall id | id in d.born :: d.born[id] < d.turns)
    && (forall id | id in d.active :: id in d.born && d.active[id].born < d.turns)
  }

  lemma TurnIsDated(d: Daemon, t: Turn)
    requires Dated(d)
    ensures Dated(TurnedTo(d, t))
  {
    hide Allowed, NewIds, GraphAfter, Result;
  }

  lemma {:induction false} RunIsDated(turns: seq<Turn>)
    ensures Dated(After(turns))
  {
    hide Dated, TurnedTo;
    if |turns| == 0 {
      NothingIsDated();
    } else {
      RunIsDated(turns[..|turns| - 1]);
      TurnIsDated(After(turns[..|turns| - 1]), turns[|turns| - 1]);
    }
  }

  lemma NothingIsDated()
    ensures Dated(Daemon(START, 0, map[], map[]))
  {
  }

  /** A leftover after a turn was one before or is made by a replacement; an allowed newcomer or a departure ends it. */
  lemma LeftoverNext(d: Daemon, t: Turn, id: U32)
    requires Dated(d)
    ensures Leftover(TurnedTo(d, t), id) <==> Replaced(d, t, id) || (Leftover(d, id) && Unallowed(d, t, id))
  {
    hide Allowed, NewIds, GraphAfter, Result;
  }

  /** Nothing since turn `k` took the connection away or gave it an owner. */
  ghost predicate UnallowedSince(turns: seq<Turn>, k: nat, id: U32) {
    forall j | k < j < |turns| :: Unallowed(After(turns[..j]), turns[j], id)
  }

  ghost predicate ReplacedAt(turns: seq<Turn>, k: nat, id: U32) {
    k < |turns| && Replaced(After(turns[..k]), turns[k], id)
  }

  /** At some turn the link was replaced, and since then no link under its id was allowed, nor did the id go. */
  ghost predicate OutlivesItsLink(turns: seq<Turn>, id: U32) {
    exists k: nat :: ReplacedAt(turns, k, id) && UnallowedSince(turns, k, id)
  }

  lemma SinceSnoc(turns: seq<Turn>, t: Turn, k: nat, id: U32)
    requires k < |turns|
    ensures ReplacedAt(turns + [t], k, id) <==> ReplacedAt(turns, k, id)
    ensures UnallowedSince(turns + [t], k, id) <==> UnallowedSince(turns, k, id) && Unallowed(After(turns), t, id)
  {
    hide After, Unallowed, Replaced;
    var all := turns + [t];
    assert all[..|turns|] == turns && all[|turns|] == t;
    assert forall j | 0 <= j < |turns| :: all[..j] == turns[..j] && all[j] == turns[j];
  }

  lemma OutlivesSnoc(turns: seq<Turn>, t: Turn, id: U32)
    ensures OutlivesItsLink(turns + [t], id)
       <==> Replaced(After(turns), t, id) || (OutlivesItsLink(turns, id) && Unallowed(After(turns), t, id))
  {
    hide After, Unallowed, Replaced, UnallowedSince, ReplacedAt;
    var all, n := turns + [t], |turns|;
    forall k: nat | k < n
      ensures ReplacedAt(all, k, id) && UnallowedSince(all, k, id)
         <==> ReplacedAt(turns, k, id) && UnallowedSince(turns, k, id) && Unallowed(After(turns), t, id)
    {
      SinceSnoc(turns, t, k, id);
    }
    LastReplaced(turns, t, id);
    NoneBeyond(turns, id);
    NoneBeyond(all, id);
  }

  lemma LastReplaced(turns: seq<Turn>, t: Turn, id: U32)
    ensures ReplacedAt(turns + [t], |turns|, id) <==> Replaced(After(turns), t, id)
    ensures UnallowedSince(turns + [t], |turns|, id)
  {
    hide After, Unallowed, Replaced;
    assert (turns + [t])[..|turns|] == turns;
  }

  lemma NoneBeyond(turns: seq<Turn>, id: U32)
    ensures forall k: nat :: ReplacedAt(turns, k, id) ==> k < |turns|
  {
  }

  /**
   Over every run a connection outlives its link if and only if in some turn its id was reported new and the newcomer
   was not allowed, and since then no link under the id was allowed and the id did not go. All other connections are for
   the link now under their id.
   */
  lemma {:induction false} LeftoverIff(turns: seq<Turn>, id: U32)
    ensures Leftover(After(turns), id) <==> OutlivesItsLink(turns, id)
  {
    hide Leftover, OutlivesItsLink, Replaced, Unallowed, Dated, TurnedTo;
    if |turns| == 0 {
      NothingLeft(turns, id);
    } else {
      var front, t := turns[..|turns| - 1], turns[|turns| - 1];
      assert front + [t] == turns;
      LeftoverIff(front, id);
      RunIsDated(front);
      LeftoverNext(After(front), t, id);
      OutlivesSnoc(front, t, id);
    }
  }

  lemma NothingLeft(turns: seq<Turn>, id: U32)
    requires |turns| == 0
    ensures !Leftover(After(turns), id) && !OutlivesItsLink(turns, id)
  {
  }

  /**
   What it is to be reported new: an id the graph holds before and after is, if and only if on the way the link was gone
   or under another serial. A re-seed reports every id.
   */
  lemma NewMeansNotTheSame(w: World, t: Turn, id: U32)
    requires id in LinksAfterTurn(w, t)
    ensures t.u.seed ==> id in NewIds(w, t)
    ensures !t.u.seed && id in w.graph.links ==>
              (id in NewIds(w, t) <==> !StaysSame(w.graph.links, t.u.objects, id))
  {
    hide StaysSame;
    if t.u.seed {
      AppearedMeansReported(map[], t.u.objects, id);
    } else if id in w.graph.links {
      ReportedIffNotSame(w.graph.links, t.u.objects, id);
    }
  }

  // ---------------------------------------------------------------------------
  // What it means for a session
  // ---------------------------------------------------------------------------

  /** Some link in the graph was allowed for this application and device. */
  ghost predicate HoldsOwnLink(d: Daemon, k: S.SessionKey) {
    exists id | id in d.active :: Belongs(d, id) && S.IsFor(d.active[id].connection, k)
  }

  /** A connection of the application has outlived its link. */
  ghost predicate HoldsLeftover(turns: seq<Turn>, k: S.SessionKey) {
    exists id | id in After(turns).active ::
      OutlivesItsLink(turns, id) && S.IsFor(After(turns).active[id].connection, k)
  }

  /**
   In every run an opened session past its settle window survives an expiry if and only if the application holds a link
   of its own, or a connection that outlived its link.
   */
  lemma SurvivesOnlyByALink(turns: seq<Turn>, sessions: map<S.SessionKey, S.SessionState>, k: S.SessionKey,
                            settle: nat, awaiting: nat, now: S.Instant)
    requires k in sessions && sessions[k].Open? && S.Elapsed(sessions[k].since, now) >= settle
    ensures var t := S.Tracker(Seen(After(turns).active), sessions);
            k in S.Next(t, S.Expire(settle, awaiting), now).sessions
            <==> HoldsOwnLink(After(turns), k) || HoldsLeftover(turns, k)
  {
    hide After, OutlivesItsLink, Belongs, S.IsFor, S.HasActiveLink;
    var d := After(turns);
    S.WhatExpires(S.Tracker(Seen(d.active), sessions), k, settle, awaiting, now);
    S.ActiveLinkIs(Seen(d.active), k);
    forall id | id in d.active ensures OutlivesItsLink(turns, id) <==> !Belongs(d, id) {
      LeftoverIff(turns, id);
    }
    assert forall id: U32 :: id in d.active <==> id as nat in Seen(d.active);
    if id: U32 :| id in d.active && S.IsFor(d.active[id].connection, k) {
      assert Seen(d.active)[id as nat] == d.active[id].connection;
    }
    if n :| n in Seen(d.active) && S.IsFor(Seen(d.active)[n], k) {
      assert n in d.active;
    }
  }

  // ---------------------------------------------------------------------------
  // The pruning loop
  // ---------------------------------------------------------------------------

  /** What the tracker holds once the allowed links are added, before the pruning. */
  function Connected(d: Daemon, t: Turn): map<nat, S.Connection> {
    Seen(d.active) + map id: U32 | id in Allowed(d.w, t) :: id as nat := Allowed(d.w, t)[id]
  }

  /** The ids of the graph's links, as the pruning gets them. */
  function LinkIds(w: World, t: Turn): set<nat> {
    set id: U32 | id in LinksAfterTurn(w, t) :: id as nat
  }

  function Only(m: map<nat, S.Connection>, ids: set<nat>): map<nat, S.Connection> {
    map id | id in m && id in ids :: m[id]
  }

  /** Connections for ids that are no link of the graph are removed one by one; the others stay as they are. */
  method Prune(t: S.StreamTracker, linkIds: set<nat>)
    modifies t`active
    ensures t.active == Only(old(t.active), linkIds)
  {
    var stale := t.active.Keys - linkIds;
    while stale != {}
      invariant stale !! linkIds && stale <= t.active.Keys <= old(t.active).Keys
      invariant forall id | id in old(t.active) :: id in t.active <==> id in linkIds || id in stale
      invariant forall id | id in t.active :: t.active[id] == old(t.active)[id]
      decreases |stale|
    {
      var id :| id in stale;
      t.RemoveConnection(id);
      stale := stale - {id};
    }
  }

  /** Pruning what is connected gives what one turn leaves. */
  lemma TurnedIsPruned(d: Daemon, t: Turn)
    ensures Seen(Turned(d, t)) == Only(Connected(d, t), LinkIds(d.w, t))
  {
    hide LinksAfterTurn, Allowed, BornAfter;
    var left, right := Seen(Turned(d, t)), Only(Connected(d, t), LinkIds(d.w, t));
    forall n: nat ensures n in left <==> n in right {
      if n in right {
        var id: U32 := n;
        assert id in LinksAfterTurn(d.w, t);
      }
    }
  }
}
