/**
 Whole runs of the monitor: block after block through the graph and the ledger, with re-seeds in between.
 */
module GraphRun {
  import opened Text
  import opened Graph
  import opened Ledger

  /**
   One update. `order` is the order in which the hash map of links is walked; `devices` and `proc` are whatever the
   device scan and `/proc` say at that moment; `seed` marks the first block of a fresh monitor.
   */
  datatype Update = Update(seed: bool, objects: seq<Value>, order: seq<PwLink>, devices: seq<Device>, proc: Proc)

  datatype Handed = Handed(epoch: nat, pending: Pending)

  /** A link as sighted in the epoch between two seeds. */
  datatype Sighting = Sighting(epoch: nat, key: LinkKey)

  /**
   The daemon's graph and ledger, with the history a theorem can speak of: everything handed to the decision path, in
   order, and every (id, serial) that was ever in the graph at the end of an update.
   */
  datatype World = World(
    graph: State, entries: map<U32, Entry>, counts: Counts,
    epoch: nat, handed: seq<Handed>, sighted: set<Sighting>)

  const START := World(EMPTY, map[], Counts(0, 0, 0, 0), 0, [], {})

  function GraphBefore(w: World, u: Update): State {
    if u.seed then EMPTY else w.graph
  }

  function EntriesBefore(w: World, u: Update): map<U32, Entry> {
    if u.seed then map[] else w.entries
  }

  function EpochAt(w: World, u: Update): nat {
    if u.seed then w.epoch + 1 else w.epoch
  }

  function GraphAfter(w: World, u: Update): State {
    Applied(GraphBefore(w, u), u.objects, u.proc).0
  }

  function ContextOf(w: World, u: Update): Context {
    Context(GraphAfter(w, u).nodes, Applied(GraphBefore(w, u), u.objects, u.proc).1, u.devices)
  }

  function Result(w: World, u: Update): Books {
    Reconciled(EntriesBefore(w, u), w.counts, u.order, ContextOf(w, u))
  }

  function Tag(epoch: nat, pending: seq<Pending>): seq<Handed> {
    seq(|pending|, i requires 0 <= i < |pending| => Handed(epoch, pending[i]))
  }

  function SightingsIn(epoch: nat, order: seq<PwLink>): set<Sighting> {
    set l | l in order :: Sighting(epoch, KeyOf(l))
  }

  /** One update through both: seed or not, apply the block, reconcile what the graph now holds. */
  function Next(w: World, u: Update): World {
    var r := Result(w, u);
    World(GraphAfter(w, u), r.entries, r.counts, EpochAt(w, u),
          w.handed + Tag(EpochAt(w, u), r.pending), w.sighted + SightingsIn(EpochAt(w, u), u.order))
  }

  /** A seed is a new start: nothing of the graph and the decisions before it counts, only the history goes on. */
  lemma SeedStartsAfresh(w: World, v: World, u: Update)
    requires u.seed
    ensures Next(w, u).graph == Next(v, u).graph && Next(w, u).graph == Applied(EMPTY, u.objects, u.proc).0
    ensures w.counts == v.counts ==> Result(w, u) == Result(v, u)
    ensures Next(w, u).epoch > w.epoch && w.handed <= Next(w, u).handed && w.sighted <= Next(w, u).sighted
  {
  }

  /** Any other update goes on from what is there. */
  lemma BlockGoesOn(w: World, u: Update)
    requires !u.seed
    ensures Next(w, u).graph == Applied(w.graph, u.objects, u.proc).0 && Next(w, u).epoch == w.epoch
    ensures Next(w, u).entries
         == Reconciled(w.entries, w.counts, u.order,
                       Context(Next(w, u).graph.nodes, Applied(w.graph, u.objects, u.proc).1, u.devices)).entries
  {
  }

  /** `order` lists the links of the map, each once. */
  ghost predicate Enumerates(order: seq<PwLink>, links: map<U32, PwLink>) {
    && UniqueIds(order)
    && (forall l | l in order :: l.id in links && links[l.id] == l)
    && (forall id | id in links :: links[id] in order)
  }

  ghost predicate Legal(w: World, u: Update) {
    Enumerates(u.order, GraphAfter(w, u).links)
  }

  function After(us: seq<Update>): World {
    if us == [] then START else Next(After(us[..|us| - 1]), us[|us| - 1])
  }

  ghost predicate LegalRun(us: seq<Update>) {
    us == [] || (LegalRun(us[..|us| - 1]) && Legal(After(us[..|us| - 1]), us[|us| - 1]))
  }

  /** A hash map of links can always be walked. */
  lemma {:induction false} EnumerationExists(links: map<U32, PwLink>) returns (order: seq<PwLink>)
    requires Keyed(links)
    ensures Enumerates(order, links)
    decreases |links.Keys|
  {
    if links == map[] {
      order := [];
    } else {
      var id :| id in links;
      var fewer := links - {id};
      assert fewer.Keys == links.Keys - {id};
      var front := EnumerationExists(fewer);
      order := front + [links[id]];
      forall k | k in links ensures links[k] in order {
        if k != id {
          assert fewer[k] in front;
        } else {
          assert order[|front|] == links[id];
        }
      }
    }
  }

  lemma LiveIdsEnumerated(order: seq<PwLink>, links: map<U32, PwLink>)
    requires Enumerates(order, links) && Keyed(links)
    ensures LiveIds(order) == links.Keys
  {
    forall id | id in links ensures id in LiveIds(order) {
      assert links[id] in order && links[id].id == id;
    }
  }

  // ---------------------------------------------------------------------------
  // What every run keeps, whatever the stream
  // ---------------------------------------------------------------------------

  function LateHanded(hs: seq<Handed>): nat {
    if hs == [] then 0 else LateHanded(hs[..|hs| - 1]) + if hs[|hs| - 1].pending.reason != New then 1 else 0
  }

  /**
   The ledger's ids are the graph's link ids; the counts are those of the hand-outs; no hand-out was a missed link.
   */
  ghost predicate Accounted(w: World) {
    && Keyed(w.graph.links)
    && w.entries.Keys == w.graph.links.Keys
    && w.counts.protected == |w.handed|
    && w.counts.decidedLate == LateHanded(w.handed)
    && (forall h | h in w.handed :: h.pending.reason != NotReportedNew)
  }

  lemma {:induction false} LateHandedTag(hs: seq<Handed>, epoch: nat, ps: seq<Pending>)
    ensures LateHanded(hs + Tag(epoch, ps)) == LateHanded(hs) + Late(ps)
  {
    if ps == [] {
      assert hs + Tag(epoch, ps) == hs;
    } else {
      var all, front := hs + Tag(epoch, ps), ps[..|ps| - 1];
      assert all[..|all| - 1] == hs + Tag(epoch, front);
      LateHandedTag(hs, epoch, front);
    }
  }

  lemma GraphStaysKeyed(w: World, u: Update)
    requires Keyed(w.graph.links)
    ensures Keyed(GraphAfter(w, u).links)
  {
    KeyedKept(LinkFold(GraphBefore(w, u).links, []), u.objects);
  }

  /** The state and the outputs of an update, in the ledger's own terms. */
  lemma NextParts(w: World, u: Update)
    requires Keyed(w.graph.links) && Legal(w, u)
    ensures var c, es := ContextOf(w, u), EntriesBefore(w, u);
            && Keyed(GraphAfter(w, u).links)
            && Result(w, u).entries.Keys == GraphAfter(w, u).links.Keys
            && Result(w, u).pending == Decisions(es, u.order, c)
            && Result(w, u).counts == Counts(w.counts.seen + |Sightings(es, u.order)|,
                                             w.counts.protected + |Result(w, u).pending|,
                                             w.counts.decidedLate + Late(Result(w, u).pending),
                                             w.counts.deniedAlive)
  {
    GraphStaysKeyed(w, u);
    LiveIdsEnumerated(u.order, GraphAfter(w, u).links);
    ReconciledEntries(EntriesBefore(w, u), w.counts, u.order, ContextOf(w, u));
    ReconciledOutputs(EntriesBefore(w, u), w.counts, u.order, ContextOf(w, u));
  }

  /** A link with no entry was not in the graph before, so this block reported it. */
  lemma NoMissedLink(w: World, u: Update, l: PwLink)
    requires Accounted(w) && Legal(w, u) && l in u.order
    ensures Decision(Prior(EntriesBefore(w, u), l.id), l, ContextOf(w, u)) != None ==>
            Decision(Prior(EntriesBefore(w, u), l.id), l, ContextOf(w, u)).value.reason != NotReportedNew
  {
    hide Classify;
    if l.id !in EntriesBefore(w, u) {
      assert l.id !in GraphBefore(w, u).links;
      AppearedMeansReported(GraphBefore(w, u).links, u.objects, l.id);
    }
  }

  lemma AccountedKept(w: World, u: Update)
    requires Accounted(w) && Legal(w, u)
    ensures Accounted(Next(w, u))
  {
    hide Reconciled, Decision;
    NextParts(w, u);
    var c, es := ContextOf(w, u), EntriesBefore(w, u);
    var ps := Result(w, u).pending;
    DecisionsAre(es, u.order, c);
    LateHandedTag(w.handed, EpochAt(w, u), ps);
    forall h | h in Next(w, u).handed ensures h.pending.reason != NotReportedNew {
      if h !in w.handed {
        assert h.pending in ps;
        var l :| l in u.order && Decision(Prior(es, l.id), l, c) == Some(h.pending);
        NoMissedLink(w, u, l);
      }
    }
  }

  /** For every stream of blocks, every device scan and every re-seed. */
  lemma {:induction false} EveryRunIsAccounted(us: seq<Update>)
    requires LegalRun(us)
    ensures Accounted(After(us))
  {
    if us != [] {
      EveryRunIsAccounted(us[..|us| - 1]);
      AccountedKept(After(us[..|us| - 1]), us[|us| - 1]);
    }
  }

  /**
   After every update of every run each live link that is on a protected device is marked decided, and under its own
   (id, serial) exactly when its old entry was not a stale one.
   */
  lemma EveryProtectedLinkIsDecided(us: seq<Update>, id: U32)
    requires us != [] && LegalRun(us) && id in After(us).graph.links
    ensures var w, u := After(us[..|us| - 1]), us[|us| - 1];
            var l := After(us).graph.links[id];
            id in After(us).entries
            && (Protected(l, ContextOf(w, u)) ==> After(us).entries[id].state == Decided)
            && (Protected(l, ContextOf(w, u)) ==>
                  (After(us).entries[id] == Entry(l.serial, Decided) <==> !Stale(Prior(EntriesBefore(w, u), id), l)))
  {
    var w, u := After(us[..|us| - 1]), us[|us| - 1];
    EveryRunIsAccounted(us);
    EveryRunIsAccounted(us[..|us| - 1]);
    var l := After(us).graph.links[id];
    assert l in u.order;
    EveryLiveLinkIsSettled(EntriesBefore(w, u), w.counts, u.order, ContextOf(w, u), l);
  }

  // ---------------------------------------------------------------------------
  // With serials: the decision is the link's own, and it is made once
  // ---------------------------------------------------------------------------

  /** The first object to bring a link carries its serial. */
  ghost predicate CarriesSerial(w: World, u: Update) {
    FirstCarriesSerial(GraphBefore(w, u).links, u.objects)
  }

  /** A serial is never reused between seeds: an (id, serial) that was sighted and is back has been there all along. */
  ghost predicate NoReturn(w: World, u: Update) {
    forall l | l in u.order && Sighting(EpochAt(w, u), KeyOf(l)) in w.sighted ::
      l.id in GraphBefore(w, u).links && KeyOf(GraphBefore(w, u).links[l.id]) == KeyOf(l)
  }

  ghost predicate SerialRun(us: seq<Update>) {
    us == [] ||
    var w, u := After(us[..|us| - 1]), us[|us| - 1];
    SerialRun(us[..|us| - 1]) && Legal(w, u) && CarriesSerial(w, u) && NoReturn(w, u)
  }

  ghost predicate WasHanded(w: World, epoch: nat, key: LinkKey) {
    exists h | h in w.handed :: h.epoch == epoch && h.pending.key == key
  }

  ghost predicate HandedOnce(hs: seq<Handed>) {
    forall i, j | 0 <= i < j < |hs| :: !(hs[i].epoch == hs[j].epoch && hs[i].pending.key == hs[j].pending.key)
  }

  /** Every entry belongs to the link now in the graph, and is marked decided exactly if that link was handed out. */
  ghost predicate OwnEntries(w: World) {
    && AllSerial(w.graph.links)
    && w.entries.Keys == w.graph.links.Keys
    && (forall id | id in w.entries :: w.entries[id].serial == w.graph.links[id].serial)
    && (forall id | id in w.entries ::
          w.entries[id].state == Decided <==> WasHanded(w, w.epoch, KeyOf(w.graph.links[id])))
  }

  /** Every (id, serial) in the graph was sighted, and so was everything handed out; no hand-out came twice. */
  ghost predicate Sighted(w: World) {
    && (forall id | id in w.graph.links :: Sighting(w.epoch, KeyOf(w.graph.links[id])) in w.sighted)
    && (forall s | s in w.sighted :: s.epoch <= w.epoch)
    && (forall h | h in w.handed :: Sighting(h.epoch, h.pending.key) in w.sighted)
    && HandedOnce(w.handed)
    && w.counts.seen == |w.sighted|
  }

  ghost predicate SerialStep(w: World, u: Update) {
    Accounted(w) && OwnEntries(w) && Sighted(w) && Legal(w, u) && CarriesSerial(w, u) && NoReturn(w, u)
  }

  lemma NowAllSerial(w: World, u: Update)
    requires SerialStep(w, u)
    ensures AllSerial(GraphBefore(w, u).links) && AllSerial(GraphAfter(w, u).links)
    ensures forall l | l in u.order :: l.serial.Some?
  {
    SerialsKept(GraphBefore(w, u).links, u.objects);
  }

  /** A first sighting, to the ledger, is exactly an (id, serial) this epoch had not seen. */
  lemma FirstIffUnsighted(w: World, u: Update, l: PwLink)
    requires SerialStep(w, u) && l in u.order
    ensures First(Prior(EntriesBefore(w, u), l.id), l) <==> Sighting(EpochAt(w, u), KeyOf(l)) !in w.sighted
  {
    NowAllSerial(w, u);
    var es, gb := EntriesBefore(w, u), GraphBefore(w, u).links;
    assert l.id in es <==> l.id in gb;
    if l.id in gb {
      assert es[l.id].serial == gb[l.id].serial;
      assert gb[l.id].id == l.id;
    }
  }

  /** A link that is known and not decided was not handed out. */
  lemma UndecidedMeansNotHanded(w: World, u: Update, l: PwLink)
    requires SerialStep(w, u) && l in u.order
    ensures Skipped(Prior(EntriesBefore(w, u), l.id), l) <==> WasHanded(w, EpochAt(w, u), KeyOf(l))
  {
    NowAllSerial(w, u);
    FirstIffUnsighted(w, u, l);
    if First(Prior(EntriesBefore(w, u), l.id), l) {
      forall h | h in w.handed ensures h.epoch != EpochAt(w, u) || h.pending.key != KeyOf(l) {
        assert Sighting(h.epoch, h.pending.key) in w.sighted;
      }
    } else {
      assert !u.seed && l.id in w.entries && KeyOf(w.graph.links[l.id]) == KeyOf(l);
    }
  }

  lemma {:induction false} DistinctCard(epoch: nat, keys: seq<LinkKey>)
    requires forall i, j | 0 <= i < j < |keys| :: keys[i].id != keys[j].id
    ensures |(set k | k in keys :: Sighting(epoch, k))| == |keys|
  {
    if keys == [] {
      assert (set k | k in keys :: Sighting(epoch, k)) == {};
    } else {
      var front, k := keys[..|keys| - 1], keys[|keys| - 1];
      DistinctCard(epoch, front);
      assert keys == front + [k];
      assert (set m | m in keys :: Sighting(epoch, m))
          == (set m | m in front :: Sighting(epoch, m)) + {Sighting(epoch, k)};
    }
  }

  /** If the first sightings are exactly the unseen links, the seen set grows by their number. */
  lemma UnseenCard(seen: set<Sighting>, es: map<U32, Entry>, order: seq<PwLink>, ep: nat)
    requires UniqueIds(order)
    requires forall l | l in order :: First(Prior(es, l.id), l) <==> Sighting(ep, KeyOf(l)) !in seen
    ensures |seen + SightingsIn(ep, order)| == |seen| + |Sightings(es, order)|
  {
    hide First;
    var keys := Sightings(es, order);
    var added := set k | k in keys :: Sighting(ep, k);
    SightingsAre(es, order);
    DistinctCard(ep, keys);
    forall s | s in added ensures s !in seen && s in SightingsIn(ep, order) {
      var l :| l in order && First(Prior(es, l.id), l) && KeyOf(l) == s.key;
    }
    forall s | s in SightingsIn(ep, order) && s !in seen ensures s in added {
      var l :| l in order && Sighting(ep, KeyOf(l)) == s;
      assert KeyOf(l) in keys;
    }
    assert seen + SightingsIn(ep, order) == seen + added;
  }

  lemma SeenGrows(w: World, u: Update)
    requires SerialStep(w, u)
    ensures |w.sighted + SightingsIn(EpochAt(w, u), u.order)|
         == |w.sighted| + |Sightings(EntriesBefore(w, u), u.order)|
  {
    hide First, Sightings;
    forall l | l in u.order
      ensures First(Prior(EntriesBefore(w, u), l.id), l) <==> Sighting(EpochAt(w, u), KeyOf(l)) !in w.sighted
    {
      FirstIffUnsighted(w, u, l);
    }
    UnseenCard(w.sighted, EntriesBefore(w, u), u.order, EpochAt(w, u));
  }

  lemma HandedOnceAppend(hs: seq<Handed>, epoch: nat, ps: seq<Pending>)
    requires HandedOnce(hs)
    requires forall i, j | 0 <= i < j < |ps| :: ps[i].key.id != ps[j].key.id
    requires forall h, p | h in hs && p in ps :: !(h.epoch == epoch && h.pending.key == p.key)
    ensures HandedOnce(hs + Tag(epoch, ps))
  {
    var all := hs + Tag(epoch, ps);
    forall i, j | 0 <= i < j < |all|
      ensures !(all[i].epoch == all[j].epoch && all[i].pending.key == all[j].pending.key)
    {
      if j >= |hs| {
        assert all[j].pending == ps[j - |hs|] && ps[j - |hs|] in ps;
        if i < |hs| {
          assert all[i] in hs;
        } else {
          assert all[i].pending == ps[i - |hs|];
        }
      }
    }
  }

  /** What is pending is a link of this graph and was not handed out before. */
  lemma PendingIsUnhanded(w: World, u: Update, p: Pending)
    requires SerialStep(w, u) && p in Result(w, u).pending
    ensures Sighting(EpochAt(w, u), p.key) in SightingsIn(EpochAt(w, u), u.order)
    ensures !WasHanded(w, EpochAt(w, u), p.key)
  {
    hide Reconciled, Applied, Decision, WasHanded, Skipped;
    NextParts(w, u);
    var es, c := EntriesBefore(w, u), ContextOf(w, u);
    DecisionsAre(es, u.order, c);
    var l :| l in u.order && Decision(Prior(es, l.id), l, c) == Some(p);
    DecidedIff(Prior(es, l.id), l, c);
    UndecidedMeansNotHanded(w, u, l);
  }

  lemma HandedStaysOnce(w: World, u: Update)
    requires SerialStep(w, u)
    ensures HandedOnce(Next(w, u).handed)
  {
    hide Reconciled, Applied, Decision;
    NextParts(w, u);
    DecisionsAre(EntriesBefore(w, u), u.order, ContextOf(w, u));
    var ep, ps := EpochAt(w, u), Result(w, u).pending;
    forall h, p | h in w.handed && p in ps ensures !(h.epoch == ep && h.pending.key == p.key) {
      PendingIsUnhanded(w, u, p);
    }
    HandedOnceAppend(w.handed, ep, ps);
  }

  lemma HandedAreSighted(w: World, u: Update)
    requires SerialStep(w, u)
    ensures forall h | h in Next(w, u).handed :: Sighting(h.epoch, h.pending.key) in Next(w, u).sighted
  {
    hide Result, Applied, SightingsIn, SerialStep, HandedOnce;
    assert Sighted(w) by { StepIsSighted(w, u); }
    var ep, w' := EpochAt(w, u), Next(w, u);
    forall h | h in w'.handed ensures Sighting(h.epoch, h.pending.key) in w'.sighted {
      if h !in w.handed {
        assert h.epoch == ep && h.pending in Result(w, u).pending;
        PendingIsUnhanded(w, u, h.pending);
      }
    }
  }

  lemma StepIsSighted(w: World, u: Update)
    requires SerialStep(w, u)
    ensures Sighted(w)
  {
  }

  lemma SightedKept(w: World, u: Update)
    requires SerialStep(w, u)
    ensures Sighted(Next(w, u))
  {
    hide Reconciled, Applied, HandedOnce, Sightings;
    NextParts(w, u);
    SeenGrows(w, u);
    HandedStaysOnce(w, u);
    HandedAreSighted(w, u);
    var w' := Next(w, u);
    forall id | id in w'.graph.links ensures Sighting(EpochAt(w, u), KeyOf(w'.graph.links[id])) in w'.sighted {
      assert w'.graph.links[id] in u.order;
    }
  }

  lemma EntryShape(prior: Option<Entry>, l: PwLink, c: Context)
    requires !Skipped(prior, l)
    ensures EntryAfter(prior, l, c).serial == l.serial
    ensures EntryAfter(prior, l, c).state == Decided <==> Protected(l, c)
  {
    hide Classify;
  }

  lemma HandedNow(w: World, u: Update, key: LinkKey)
    ensures WasHanded(Next(w, u), EpochAt(w, u), key)
       <==> WasHanded(w, EpochAt(w, u), key) || exists p | p in Result(w, u).pending :: p.key == key
  {
    hide Reconciled, Applied;
    var ep, ps, all := EpochAt(w, u), Result(w, u).pending, Next(w, u).handed;
    assert all == w.handed + Tag(ep, ps);
    if WasHanded(w, ep, key) {
      var h :| h in w.handed && h.epoch == ep && h.pending.key == key;
      assert h in all;
    }
    if p :| p in ps && p.key == key {
      var i :| 0 <= i < |ps| && ps[i] == p;
      assert all[|w.handed| + i] == Handed(ep, p);
    }
    if WasHanded(Next(w, u), ep, key) && !WasHanded(w, ep, key) {
      var h :| h in all && h.epoch == ep && h.pending.key == key;
      assert h !in w.handed;
      assert h in Tag(ep, ps);
      assert h.pending in ps;
    }
  }

  /** A link is among the pending ones exactly if it is protected and was not skipped. */
  lemma PendingNow(w: World, u: Update, l: PwLink)
    requires SerialStep(w, u) && l in u.order
    ensures (exists p | p in Result(w, u).pending :: p.key == KeyOf(l))
       <==> Protected(l, ContextOf(w, u)) && !Skipped(Prior(EntriesBefore(w, u), l.id), l)
  {
    hide Reconciled, Applied, Decision, Classify;
    NextParts(w, u);
    var es, c, ps := EntriesBefore(w, u), ContextOf(w, u), Result(w, u).pending;
    DecisionsAre(es, u.order, c);
    DecidedIff(Prior(es, l.id), l, c);
    if Decision(Prior(es, l.id), l, c).Some? {
      assert Decision(Prior(es, l.id), l, c).value in ps;
    }
    if p :| p in ps && p.key == KeyOf(l) {
      var m :| m in u.order && Decision(Prior(es, m.id), m, c) == Some(p);
      DecidedIff(Prior(es, m.id), m, c);
      assert m == l;
    }
  }

  lemma OwnEntryKept(w: World, u: Update, l: PwLink)
    requires SerialStep(w, u) && l in u.order
    ensures var e := EntryAfter(Prior(EntriesBefore(w, u), l.id), l, ContextOf(w, u));
            e.serial == l.serial && (e.state == Decided <==> WasHanded(Next(w, u), EpochAt(w, u), KeyOf(l)))
  {
    hide Applied, Classify, Result, Next, WasHanded, ContextOf, Enumerates;
    if !Skipped(Prior(EntriesBefore(w, u), l.id), l) {
      EntryShape(Prior(EntriesBefore(w, u), l.id), l, ContextOf(w, u));
    }
    NowAllSerial(w, u);
    UndecidedMeansNotHanded(w, u, l);
    PendingNow(w, u, l);
    HandedNow(w, u, KeyOf(l));
  }

  lemma OwnEntryAt(w: World, u: Update, id: U32)
    requires SerialStep(w, u) && id in GraphAfter(w, u).links
    ensures id in Result(w, u).entries
    ensures Result(w, u).entries[id].serial == GraphAfter(w, u).links[id].serial
    ensures Result(w, u).entries[id].state == Decided
       <==> WasHanded(Next(w, u), EpochAt(w, u), KeyOf(GraphAfter(w, u).links[id]))
  {
    hide Applied, EntryAfter, WasHanded, ContextOf;
    NextParts(w, u);
    ReconciledEntries(EntriesBefore(w, u), w.counts, u.order, ContextOf(w, u));
    OwnEntryKept(w, u, GraphAfter(w, u).links[id]);
  }

  lemma OwnEntriesKept(w: World, u: Update)
    requires SerialStep(w, u)
    ensures OwnEntries(Next(w, u))
  {
    hide Applied, Reconciled, WasHanded;
    NextParts(w, u);
    NowAllSerial(w, u);
    forall id | id in Next(w, u).entries
      ensures Next(w, u).entries[id].serial == Next(w, u).graph.links[id].serial
      ensures Next(w, u).entries[id].state == Decided
         <==> WasHanded(Next(w, u), Next(w, u).epoch, KeyOf(Next(w, u).graph.links[id]))
    {
      OwnEntryAt(w, u, id);
    }
  }

  lemma {:induction false} SerialRunKept(us: seq<Update>)
    requires SerialRun(us)
    ensures LegalRun(us) && Accounted(After(us)) && OwnEntries(After(us)) && Sighted(After(us))
  {
    if us != [] {
      var w, u := After(us[..|us| - 1]), us[|us| - 1];
      SerialRunKept(us[..|us| - 1]);
      AccountedKept(w, u);
      OwnEntriesKept(w, u);
      SightedKept(w, u);
    }
  }

  /**
   The promise of the ledger. Over every run whose links arrive with serials that are not reused: after every update
   each live protected link is marked decided under its own (id, serial), and it was handed to the decision path.
   */
  lemma EveryProtectedLinkIsItsOwn(us: seq<Update>, id: U32)
    requires us != [] && SerialRun(us) && id in After(us).graph.links
    requires Protected(After(us).graph.links[id], ContextOf(After(us[..|us| - 1]), us[|us| - 1]))
    ensures id in After(us).entries
    ensures After(us).entries[id] == Entry(After(us).graph.links[id].serial, Decided)
    ensures WasHanded(After(us), After(us).epoch, KeyOf(After(us).graph.links[id]))
  {
    SerialRunKept(us);
    EveryProtectedLinkIsDecided(us, id);
  }

  /**
   ... each (id, serial) is handed out at most once between seeds, `seen` counts the distinct links sighted,
   `protected` the hand-outs and `decided_late` those that were not simply new.
   */
  lemma HandedAtMostOnceAndCounted(us: seq<Update>)
    requires SerialRun(us)
    ensures HandedOnce(After(us).handed)
    ensures After(us).counts.seen == |After(us).sighted|
    ensures After(us).counts.protected == |After(us).handed|
    ensures After(us).counts.decidedLate == LateHanded(After(us).handed)
  {
    SerialRunKept(us);
  }

  /** The update hands this link to the decision path. */
  ghost predicate HandedIn(w: World, u: Update, l: PwLink) {
    exists p | p in Result(w, u).pending :: p.key == KeyOf(l)
  }

  /**
   In every update of every run, serials or not: a live link is handed out if and only if it is on a protected device
   and the ledger cannot take it for a decided one. So a link the block reported new goes undecided in exactly one way:
   its id was decided before the block, and a serial is missing or unchanged.
   */
  lemma HandedIff(us: seq<Update>, id: U32)
    requires us != [] && LegalRun(us) && id in After(us).graph.links
    ensures var w, u, l := After(us[..|us| - 1]), us[|us| - 1], After(us).graph.links[id];
            var taken := TakenForDecided(Prior(EntriesBefore(w, u), id), l);
            && (HandedIn(w, u, l) <==> Protected(l, ContextOf(w, u)) && !taken)
            && (id in ContextOf(w, u).newIds && Protected(l, ContextOf(w, u)) ==> (!HandedIn(w, u, l) <==> taken))
  {
    hide Protected, TakenForDecided, Decision, Decisions, Result, ContextOf, EntriesBefore;
    var w, u, l := After(us[..|us| - 1]), us[|us| - 1], After(us).graph.links[id];
    var c, es := ContextOf(w, u), EntriesBefore(w, u);
    EveryRunIsAccounted(us[..|us| - 1]);
    EveryRunIsAccounted(us);
    NextParts(w, u);
    DecisionsAre(es, u.order, c);
    assert l in u.order && l.id == id;
    DecidedIff(Prior(es, id), l, c);
    if p :| p in Result(w, u).pending && p.key == KeyOf(l) {
      var k :| k in u.order && Decision(Prior(es, k.id), k, c) == Some(p);
      DecidedIff(Prior(es, k.id), k, c);
      assert k.id == l.id && k == l;
    }
  }

  /**
   In terms of the devices: after every update of every run, each live link out of or into a listed device is marked
   decided, and it is handed out unless the ledger takes it for a decided one.
   */
  lemma DeviceLinksAreDecided(us: seq<Update>, id: U32, d: Device)
    requires us != [] && LegalRun(us) && id in After(us).graph.links
    requires var l, nodes, devices := After(us).graph.links[id], After(us).graph.nodes, us[|us| - 1].devices;
             OutOf(d, l, nodes, devices) || Into(d, l, nodes, devices)
    ensures id in After(us).entries && After(us).entries[id].state == Decided
    ensures var w, u, l := After(us[..|us| - 1]), us[|us| - 1], After(us).graph.links[id];
            HandedIn(w, u, l) <==> !TakenForDecided(Prior(EntriesBefore(w, u), id), l)
  {
    hide OutOf, Into, Protected, TakenForDecided, Result, HandedIn, Stale, LegalRun;
    var w, u, l := After(us[..|us| - 1]), us[|us| - 1], After(us).graph.links[id];
    ProtectedIff(l, ContextOf(w, u));
    EveryProtectedLinkIsDecided(us, id);
    HandedIff(us, id);
  }

  /**
   Without serials the promise is weaker. A link that is removed and comes back under its id within one block, with no
   serial, is reported new by the graph and still taken for the decided one by the ledger: nothing is handed out.
   */
  lemma BackInOneBlockIsHidden(links: map<U32, PwLink>, entry: Entry, removal: Value, obj: Value, c: Context)
    requires IsRemoval(removal) && LinkIn(obj).Some? && IdOf(removal) == IdOf(obj)
    requires LinkIn(obj).value.serial.None? && entry.state == Decided
    ensures var f, l := LinksAfter(LinkFold(links, []), [removal, obj]), LinkIn(obj).value;
            l.id in f.links && f.links[l.id] == l && f.news == [l.id] && Decision(Some(entry), l, c) == None
  {
    hide ParseLink, KindOf, Classify;
    assert [removal, obj][..1] == [removal] && [removal][..0] == [];
    assert LinksAfter(LinkFold(links, []), [removal]) == LinkStep(LinkFold(links, []), removal);
  }
}
