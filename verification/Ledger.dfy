/** Which live link is on a protected device, and the ledger that makes sure each one gets a decision. */
module Ledger {
  import opened Text
  import opened Common
  import opened Graph

  // ---------------------------------------------------------------------------
  // Classification
  // ---------------------------------------------------------------------------

  datatype Device = Device(category: Category, nodeName: string, description: string, objectSerial: U32, guarded: bool)

  datatype StreamInfo = StreamInfo(
    nodeId: U32, appName: string, pid: U32, nodeName: string, mediaName: string, mediaClass: string)

  datatype LinkMatch = LinkMatch(stream: StreamInfo, device: Device)

  predicate IsDeviceNode(d: Device, id: U32, node: NodeInfo) {
    d.nodeName == node.nodeName || d.objectSerial == id
  }

  function FindDevice(id: U32, node: NodeInfo, devices: seq<Device>): Option<Device> {
    if devices == [] then None
    else if IsDeviceNode(devices[0], id, node) then Some(devices[0])
    else FindDevice(id, node, devices[1..])
  }

  function StreamOf(n: NodeInfo): StreamInfo {
    StreamInfo(n.id, n.appName, n.pid, n.nodeName, n.mediaName, n.mediaClass)
  }

  /** The device at one end of the link and the stream at the other, for a monitor tap or a source. */
  function Classify(l: PwLink, nodes: map<U32, NodeInfo>, devices: seq<Device>): Option<LinkMatch> {
    if l.outputNode !in nodes || l.inputNode !in nodes then None
    else
      var out, inp := nodes[l.outputNode], nodes[l.inputNode];
      var source, sink := FindDevice(l.outputNode, out, devices), FindDevice(l.inputNode, inp, devices);
      if out.mediaClass == "Audio/Sink" && inp.mediaClass == "Stream/Input/Audio" && source.Some?
      then Some(LinkMatch(StreamOf(inp), source.value))
      else if source.Some? && source.value.category != Monitor
      then Some(LinkMatch(StreamOf(inp), source.value))
      else if sink.Some? && sink.value.category != Monitor
      then Some(LinkMatch(StreamOf(out), sink.value))
      else None
  }

  /** The first device of the list that names this node, by its name or by its number. */
  ghost predicate FirstListed(d: Device, id: U32, node: NodeInfo, devices: seq<Device>) {
    exists i | 0 <= i < |devices| ::
      && devices[i] == d && (d.nodeName == node.nodeName || d.objectSerial == id)
      && forall j | 0 <= j < i :: devices[j].nodeName != node.nodeName && devices[j].objectSerial != id
  }

  lemma FirstOfRest(d: Device, id: U32, node: NodeInfo, devices: seq<Device>)
    requires devices != [] && devices[0].nodeName != node.nodeName && devices[0].objectSerial != id
    requires FirstListed(d, id, node, devices)
    ensures FirstListed(d, id, node, devices[1..])
  {
    var rest := devices[1..];
    var i :| 0 <= i < |devices| && devices[i] == d && (d.nodeName == node.nodeName || d.objectSerial == id)
             && forall j | 0 <= j < i :: devices[j].nodeName != node.nodeName && devices[j].objectSerial != id;
    assert i > 0 && rest[i - 1] == d;
    assert forall j | 0 <= j < i - 1 :: rest[j] == devices[j + 1];
  }

  lemma FirstBehind(d: Device, id: U32, node: NodeInfo, devices: seq<Device>)
    requires devices != [] && devices[0].nodeName != node.nodeName && devices[0].objectSerial != id
    requires FirstListed(d, id, node, devices[1..])
    ensures FirstListed(d, id, node, devices)
  {
    var rest := devices[1..];
    var i :| 0 <= i < |rest| && rest[i] == d && (d.nodeName == node.nodeName || d.objectSerial == id)
             && forall j | 0 <= j < i :: rest[j].nodeName != node.nodeName && rest[j].objectSerial != id;
    assert devices[i + 1] == d;
    assert forall j | 0 < j < i + 1 :: devices[j] == rest[j - 1];
  }

  lemma {:induction false} FindDeviceIsFirst(id: U32, node: NodeInfo, devices: seq<Device>, d: Device)
    ensures FindDevice(id, node, devices) == Some(d) <==> FirstListed(d, id, node, devices)
  {
    if devices != [] && devices[0].nodeName != node.nodeName && devices[0].objectSerial != id {
      hide FirstListed;
      FindDeviceIsFirst(id, node, devices[1..], d);
      if FirstListed(d, id, node, devices) {
        FirstOfRest(d, id, node, devices);
      } else if FirstListed(d, id, node, devices[1..]) {
        FirstBehind(d, id, node, devices);
      }
    } else if devices != [] {
      assert FirstListed(devices[0], id, node, devices);
    }
  }

  lemma FoundIsFirst(id: U32, node: NodeInfo, devices: seq<Device>)
    ensures forall d :: FirstListed(d, id, node, devices) <==> FindDevice(id, node, devices) == Some(d)
  {
    hide FindDevice, FirstListed;
    forall d ensures FirstListed(d, id, node, devices) <==> FindDevice(id, node, devices) == Some(d) {
      FindDeviceIsFirst(id, node, devices, d);
    }
  }

  /** The stream info is the node's own. */
  predicate Describes(s: StreamInfo, n: NodeInfo) {
    && s.nodeId == n.id && s.appName == n.appName && s.pid == n.pid
    && s.nodeName == n.nodeName && s.mediaName == n.mediaName && s.mediaClass == n.mediaClass
  }

  /** An application records what a sink plays. */
  predicate IsTap(out: NodeInfo, inp: NodeInfo) {
    out.mediaClass == "Audio/Sink" && inp.mediaClass == "Stream/Input/Audio"
  }

  /** The link comes out of this listed device: a tap on it, or it is a microphone or a camera. */
  ghost predicate OutOf(d: Device, l: PwLink, nodes: map<U32, NodeInfo>, devices: seq<Device>) {
    && l.outputNode in nodes && l.inputNode in nodes
    && FirstListed(d, l.outputNode, nodes[l.outputNode], devices)
    && (IsTap(nodes[l.outputNode], nodes[l.inputNode]) || d.category == Microphone || d.category == Camera)
  }

  /** The link goes into this listed microphone or camera. */
  ghost predicate Into(d: Device, l: PwLink, nodes: map<U32, NodeInfo>, devices: seq<Device>) {
    && l.outputNode in nodes && l.inputNode in nodes
    && FirstListed(d, l.inputNode, nodes[l.inputNode], devices)
    && (d.category == Microphone || d.category == Camera)
  }

  /**
   A link is matched to a device if and only if it comes out of it, and then the stream is the node it goes into, or it
   comes out of no device and goes into this one, and then the stream is the node it comes out of.
   */
  lemma ClassifiedAs(l: PwLink, nodes: map<U32, NodeInfo>, devices: seq<Device>, m: LinkMatch)
    ensures Classify(l, nodes, devices) == Some(m)
       <==> || (OutOf(m.device, l, nodes, devices) && Describes(m.stream, nodes[l.inputNode]))
            || (&& Into(m.device, l, nodes, devices) && Describes(m.stream, nodes[l.outputNode])
                && forall d :: !OutOf(d, l, nodes, devices))
  {
    hide FindDevice, FirstListed;
    if l.outputNode in nodes && l.inputNode in nodes {
      var out, inp := nodes[l.outputNode], nodes[l.inputNode];
      FoundIsFirst(l.outputNode, out, devices);
      FoundIsFirst(l.inputNode, inp, devices);
      var source := FindDevice(l.outputNode, out, devices);
      assert forall d :: OutOf(d, l, nodes, devices)
                    <==> source == Some(d) && (IsTap(out, inp) || d.category != Monitor);
      assert source.Some? ==> OutOf(source.value, l, nodes, devices)
                              || (!IsTap(out, inp) && source.value.category == Monitor);
    }
  }

  // ---------------------------------------------------------------------------
  // One link against its entry
  // ---------------------------------------------------------------------------

  datatype LinkKey = LinkKey(id: U32, serial: Option<U64>)

  datatype Reason = New | ClassifiedLate | ReusedIdNoRemoval | NotReportedNew

  datatype Pending = Pending(key: LinkKey, linkMatch: LinkMatch, reason: Reason)

  datatype EntryState = Waiting | NotProtected | Decided

  datatype Entry = Entry(serial: Option<U64>, state: EntryState)

  datatype Counts = Counts(seen: nat, protected: nat, decidedLate: nat, deniedAlive: nat)

  /** What one reconciliation works from: the graph around the links, the ids reported new, the devices. */
  datatype Context = Context(nodes: map<U32, NodeInfo>, newIds: seq<U32>, devices: seq<Device>)

  function KeyOf(l: PwLink): LinkKey {
    LinkKey(l.id, l.serial)
  }

  /** The id is known under another serial. A missing serial on either side tells nothing. */
  predicate Reused(prior: Option<Entry>, l: PwLink) {
    prior.Some? && prior.value.serial.Some? && l.serial.Some? && prior.value.serial != l.serial
  }

  /** The state this very link was left in, as far as the ledger can tell. */
  function PriorState(prior: Option<Entry>, l: PwLink): Option<EntryState> {
    if prior.None? || Reused(prior, l) then None else Some(prior.value.state)
  }

  predicate Skipped(prior: Option<Entry>, l: PwLink) {
    PriorState(prior, l) == Some(Decided)
  }

  function ReasonFor(prior: Option<Entry>, l: PwLink, newIds: seq<U32>): Reason {
    if Reused(prior, l) then ReusedIdNoRemoval
    else if PriorState(prior, l).Some? then ClassifiedLate
    else if l.id in newIds then New
    else NotReportedNew
  }

  function EntryAfter(prior: Option<Entry>, l: PwLink, c: Context): Entry {
    if Skipped(prior, l) then prior.value
    else if Classify(l, c.nodes, c.devices).Some? then Entry(l.serial, Decided)
    else if PriorState(prior, l) == Some(NotProtected) then Entry(l.serial, NotProtected)
    else if l.outputNode in c.nodes && l.inputNode in c.nodes then Entry(l.serial, NotProtected)
    else Entry(l.serial, Waiting)
  }

  predicate First(prior: Option<Entry>, l: PwLink) {
    PriorState(prior, l).None?
  }

  function Decision(prior: Option<Entry>, l: PwLink, c: Context): Option<Pending> {
    var m := Classify(l, c.nodes, c.devices);
    if Skipped(prior, l) || m.None? then None else Some(Pending(KeyOf(l), m.value, ReasonFor(prior, l, c.newIds)))
  }

  // ---------------------------------------------------------------------------
  // All links
  // ---------------------------------------------------------------------------

  predicate UniqueIds(links: seq<PwLink>) {
    forall i, j | 0 <= i < j < |links| :: links[i].id != links[j].id
  }

  function LiveIds(links: seq<PwLink>): set<U32> {
    set l | l in links :: l.id
  }

  function Prior(entries: map<U32, Entry>, id: U32): Option<Entry> {
    if id in entries then Some(entries[id]) else None
  }

  function Retained(entries: map<U32, Entry>, links: seq<PwLink>): map<U32, Entry> {
    map id | id in entries && id in LiveIds(links) :: entries[id]
  }

  datatype Books = Books(entries: map<U32, Entry>, counts: Counts, pending: seq<Pending>)

  function Visit(b: Books, l: PwLink, c: Context): Books {
    var prior := Prior(b.entries, l.id);
    var decision := Decision(prior, l, c);
    Books(
      b.entries[l.id := EntryAfter(prior, l, c)],
      Counts(b.counts.seen + (if First(prior, l) then 1 else 0),
             b.counts.protected + (if decision.Some? then 1 else 0),
             b.counts.decidedLate + (if decision.Some? && decision.value.reason != New then 1 else 0),
             b.counts.deniedAlive),
      if decision.Some? then b.pending + [decision.value] else b.pending)
  }

  function VisitAll(b: Books, links: seq<PwLink>, c: Context): Books {
    if links == [] then b else Visit(VisitAll(b, links[..|links| - 1], c), links[|links| - 1], c)
  }

  lemma VisitNone(b: Books, links: seq<PwLink>, c: Context)
    ensures VisitAll(b, links[..0], c) == b
  {
  }

  lemma VisitNext(b: Books, links: seq<PwLink>, i: nat, c: Context)
    requires i < |links|
    ensures VisitAll(b, links[..i + 1], c) == Visit(VisitAll(b, links[..i], c), links[i], c)
  {
    hide Visit;
    assert links[..i + 1][..i] == links[..i];
  }

  function Reconciled(entries: map<U32, Entry>, counts: Counts, links: seq<PwLink>, c: Context): Books {
    VisitAll(Books(Retained(entries, links), counts, []), links, c)
  }

  class LinkLedger {
    var entries: map<U32, Entry>
    var counts: Counts

    constructor ()
      ensures entries == map[] && counts == Counts(0, 0, 0, 0)
    {
      entries, counts := map[], Counts(0, 0, 0, 0);
    }

    /** A respawn restarts ids and serials, so no decision may survive it; the counts do. */
    method Forget()
      modifies `entries
      ensures entries == map[]
    {
      entries := map[];
    }

    /** Entries, counts and pending decisions become those of `Reconciled`. */
    method Reconcile(links: seq<PwLink>, c: Context) returns (pending: seq<Pending>)
      modifies this
      ensures Books(entries, counts, pending) == Reconciled(old(entries), old(counts), links, c)
    {
      hide VisitAll, Retained, Classify;
      pending := [];
      entries := Retained(entries, links);
      ghost var start := Books(entries, counts, pending);
      VisitNone(start, links, c);
      for i := 0 to |links|
        invariant Books(entries, counts, pending) == VisitAll(start, links[..i], c)
      {
        VisitNext(start, links, i, c);
        var link := links[i];
        var prior := Prior(entries, link.id);
        var reused := Reused(prior, link);
        var priorState := if reused || prior.None? then None else Some(prior.value.state);
        if priorState == Some(Decided) {
          assert entries[link.id := prior.value] == entries;
          continue;
        }
        if priorState.None? {
          counts := counts.(seen := counts.seen + 1);
        }
        var state;
        var m := Classify(link, c.nodes, c.devices);
        if m.Some? {
          var reason := if reused then ReusedIdNoRemoval
                        else if priorState.Some? then ClassifiedLate
                        else if link.id in c.newIds then New
                        else NotReportedNew;
          counts := counts.(protected := counts.protected + 1);
          if reason != New {
            counts := counts.(decidedLate := counts.decidedLate + 1);
          }
          pending := pending + [Pending(KeyOf(link), m.value, reason)];
          state := Decided;
        } else if priorState == Some(NotProtected) {
          state := NotProtected;
        } else if link.outputNode in c.nodes && link.inputNode in c.nodes {
          state := NotProtected;
        } else {
          state := Waiting;
        }
        entries := entries[link.id := Entry(link.serial, state)];
      }
      assert links[..|links|] == links;
    }

    /** The links whose id has an entry with their own serial. */
    function StillAlive(links: seq<LinkKey>): (alive: seq<LinkKey>)
      reads this
      ensures forall k :: k in alive <==> k in links && k.id in entries && entries[k.id].serial == k.serial
    {
      Alive(entries, links)
    }
  }

  function Alive(entries: map<U32, Entry>, links: seq<LinkKey>): (alive: seq<LinkKey>)
    ensures forall k :: k in alive <==> k in links && k.id in entries && entries[k.id].serial == k.serial
  {
    if links == [] then []
    else
      var rest := Alive(entries, links[1..]);
      if links[0].id in entries && entries[links[0].id].serial == links[0].serial then [links[0]] + rest else rest
  }

  // ---------------------------------------------------------------------------
  // Link by link: with distinct ids no link sees another one's entry
  // ---------------------------------------------------------------------------

  /** The decisions handed out, in link order. */
  function Decisions(entries: map<U32, Entry>, links: seq<PwLink>, c: Context): seq<Pending> {
    if links == [] then []
    else
      var front, l := Decisions(entries, links[..|links| - 1], c), links[|links| - 1];
      var d := Decision(Prior(entries, l.id), l, c);
      if d.Some? then front + [d.value] else front
  }

  /** The links sighted for the first time, in link order. */
  function Sightings(entries: map<U32, Entry>, links: seq<PwLink>): seq<LinkKey> {
    if links == [] then []
    else
      var front, l := Sightings(entries, links[..|links| - 1]), links[|links| - 1];
      if First(Prior(entries, l.id), l) then front + [KeyOf(l)] else front
  }

  function Late(ps: seq<Pending>): nat {
    if ps == [] then 0 else Late(ps[..|ps| - 1]) + if ps[|ps| - 1].reason != New then 1 else 0
  }

  lemma {:induction false} VisitAllEntries(b: Books, links: seq<PwLink>, c: Context)
    requires UniqueIds(links)
    ensures var r := VisitAll(b, links, c).entries;
            && r.Keys == b.entries.Keys + LiveIds(links)
            && (forall id | id in b.entries && id !in LiveIds(links) :: r[id] == b.entries[id])
            && (forall l | l in links :: r[l.id] == EntryAfter(Prior(b.entries, l.id), l, c))
  {
    hide EntryAfter, Decision, First;
    if links != [] {
      var front, l := links[..|links| - 1], links[|links| - 1];
      assert links == front + [l];
      VisitAllEntries(b, front, c);
      assert LiveIds(links) == LiveIds(front) + {l.id};
      assert Prior(VisitAll(b, front, c).entries, l.id) == Prior(b.entries, l.id);
    }
  }

  /** A link sees its own old entry, whatever was visited before it. */
  lemma PriorUnvisited(b: Books, front: seq<PwLink>, l: PwLink, c: Context)
    requires UniqueIds(front + [l])
    ensures UniqueIds(front) && Prior(VisitAll(b, front, c).entries, l.id) == Prior(b.entries, l.id)
  {
    hide EntryAfter, VisitAll;
    var all := front + [l];
    assert all[|front|] == l && forall i | 0 <= i < |front| :: all[i] == front[i];
    VisitAllEntries(b, front, c);
    assert l.id !in LiveIds(front);
  }

  lemma {:induction false} VisitAllOutputs(b: Books, links: seq<PwLink>, c: Context)
    requires UniqueIds(links)
    ensures var r := VisitAll(b, links, c);
            && r.pending == b.pending + Decisions(b.entries, links, c)
            && r.counts == Counts(b.counts.seen + |Sightings(b.entries, links)|,
                                  b.counts.protected + |Decisions(b.entries, links, c)|,
                                  b.counts.decidedLate + Late(Decisions(b.entries, links, c)),
                                  b.counts.deniedAlive)
  {
    hide EntryAfter, Decision, First;
    if links != [] {
      hide LiveIds;
      var front, l := links[..|links| - 1], links[|links| - 1];
      assert front + [l] == links;
      VisitAllOutputs(b, front, c);
      PriorUnvisited(b, front, l, c);
    }
  }

  // ---------------------------------------------------------------------------
  // What one reconciliation leaves behind
  // ---------------------------------------------------------------------------

  /**
   The one way a decision can belong to a different link: it was made under another serial, and one of the two serials
   is missing, so the ledger could not see the difference.
   */
  predicate Stale(prior: Option<Entry>, l: PwLink) {
    && prior.Some? && prior.value.state == Decided
    && prior.value.serial != l.serial && (prior.value.serial.None? || l.serial.None?)
  }

  predicate Protected(l: PwLink, c: Context) {
    Classify(l, c.nodes, c.devices).Some?
  }

  /** A link is protected if and only if it comes out of a listed device or goes into one. */
  lemma ProtectedIff(l: PwLink, c: Context)
    ensures Protected(l, c) <==> exists d :: OutOf(d, l, c.nodes, c.devices) || Into(d, l, c.nodes, c.devices)
  {
    hide Classify, FirstListed;
    if Protected(l, c) {
      ClassifiedAs(l, c.nodes, c.devices, Classify(l, c.nodes, c.devices).value);
    }
    if d :| OutOf(d, l, c.nodes, c.devices) {
      ClassifiedAs(l, c.nodes, c.devices, LinkMatch(StreamOf(c.nodes[l.inputNode]), d));
    } else if d :| Into(d, l, c.nodes, c.devices) {
      ClassifiedAs(l, c.nodes, c.devices, LinkMatch(StreamOf(c.nodes[l.outputNode]), d));
    }
  }

  /** Nothing tells the link from one that was decided: same id, and no two different serials. */
  predicate TakenForDecided(prior: Option<Entry>, l: PwLink) {
    && prior.Some? && prior.value.state == Decided
    && (prior.value.serial.None? || l.serial.None? || prior.value.serial == l.serial)
  }

  /** A link gets a decision if and only if it is on a protected device and is not taken for a decided one. */
  lemma DecidedIff(prior: Option<Entry>, l: PwLink, c: Context)
    ensures Decision(prior, l, c).Some? <==> Protected(l, c) && !TakenForDecided(prior, l)
    ensures Decision(prior, l, c).Some? ==> Decision(prior, l, c).value.key == KeyOf(l)
    ensures Skipped(prior, l) <==> TakenForDecided(prior, l)
  {
    hide Classify;
  }

  /**
   What is handed out with a link: its match, and why. It is new if the id was unknown and reported new; an unknown id
   that was not reported was missed; a known one with another serial is a reused id; any other was only classified late.
   */
  lemma DecisionSays(prior: Option<Entry>, l: PwLink, c: Context)
    requires Decision(prior, l, c).Some?
    ensures var p := Decision(prior, l, c).value;
            && Classify(l, c.nodes, c.devices) == Some(p.linkMatch)
            && (p.reason == New <==> prior.None? && l.id in c.newIds)
            && (p.reason == NotReportedNew <==> prior.None? && l.id !in c.newIds)
            && (p.reason == ReusedIdNoRemoval
                <==> prior.Some? && prior.value.serial.Some? && l.serial.Some? && prior.value.serial != l.serial)
  {
    hide Classify;
  }

  /** What a link that is on no protected device is remembered as: waiting while one of its ends was never known. */
  lemma UnprotectedEntry(prior: Option<Entry>, l: PwLink, c: Context)
    requires !Protected(l, c) && !TakenForDecided(prior, l)
    ensures EntryAfter(prior, l, c).serial == l.serial && EntryAfter(prior, l, c).state != Decided
    ensures EntryAfter(prior, l, c).state == Waiting
       <==> && (l.outputNode !in c.nodes || l.inputNode !in c.nodes)
            && (prior.Some? && prior.value.state == NotProtected ==> Reused(prior, l))
  {
    hide Classify;
  }

  /** The retained entry of a live link is its entry. */
  lemma RetainedPrior(entries: map<U32, Entry>, links: seq<PwLink>, l: PwLink)
    requires l in links
    ensures Prior(Retained(entries, links), l.id) == Prior(entries, l.id)
  {
  }

  lemma ReconciledEntries(entries: map<U32, Entry>, counts: Counts, links: seq<PwLink>, c: Context)
    requires UniqueIds(links)
    ensures var r := Reconciled(entries, counts, links, c).entries;
            r.Keys == LiveIds(links)
            && forall l | l in links :: r[l.id] == EntryAfter(Prior(entries, l.id), l, c)
  {
    hide EntryAfter;
    VisitAllEntries(Books(Retained(entries, links), counts, []), links, c);
    forall l | l in links
      ensures Prior(Retained(entries, links), l.id) == Prior(entries, l.id)
    {
      RetainedPrior(entries, links, l);
    }
  }

  /**
   After a reconciliation from any ledger: the ledger holds exactly the live ids, every live protected link is marked
   decided, and the mark is under its own (id, serial) exactly when the old entry was not a stale one.
   */
  lemma EveryLiveLinkIsSettled(entries: map<U32, Entry>, counts: Counts, links: seq<PwLink>, c: Context, l: PwLink)
    requires UniqueIds(links) && l in links
    ensures var r := Reconciled(entries, counts, links, c).entries;
            && r.Keys == LiveIds(links)
            && (Protected(l, c) ==> r[l.id].state == Decided)
            && (Protected(l, c) ==> (r[l.id] == Entry(l.serial, Decided) <==> !Stale(Prior(entries, l.id), l)))
  {
    hide Classify;
    ReconciledEntries(entries, counts, links, c);
  }

  lemma {:induction false} DecisionsAre(entries: map<U32, Entry>, links: seq<PwLink>, c: Context)
    requires UniqueIds(links)
    ensures forall p :: p in Decisions(entries, links, c)
                   <==> exists l | l in links :: Decision(Prior(entries, l.id), l, c) == Some(p)
    ensures forall i, j | 0 <= i < j < |Decisions(entries, links, c)| ::
              Decisions(entries, links, c)[i].key.id != Decisions(entries, links, c)[j].key.id
  {
    if links != [] {
      hide Classify, Skipped, ReasonFor;
      var front, l := links[..|links| - 1], links[|links| - 1];
      assert links == front + [l];
      DecisionsAre(entries, front, c);
      var before, all := Decisions(entries, front, c), Decisions(entries, links, c);
      var d := Decision(Prior(entries, l.id), l, c);
      forall p ensures p in all <==> exists k | k in links :: Decision(Prior(entries, k.id), k, c) == Some(p) {
        if p in before {
          var k :| k in front && Decision(Prior(entries, k.id), k, c) == Some(p);
          assert k in links;
        }
        if d == Some(p) {
          assert l in links;
        }
      }
      forall i | 0 <= i < |before| ensures before[i].key.id != l.id {
        assert before[i] in before;
        var k :| k in front && Decision(Prior(entries, k.id), k, c) == Some(before[i]);
      }
    }
  }

  lemma {:induction false} SightingsAre(entries: map<U32, Entry>, links: seq<PwLink>)
    requires UniqueIds(links)
    ensures forall k :: k in Sightings(entries, links)
                   <==> exists l | l in links :: First(Prior(entries, l.id), l) && KeyOf(l) == k
    ensures forall i, j | 0 <= i < j < |Sightings(entries, links)| ::
              Sightings(entries, links)[i].id != Sightings(entries, links)[j].id
  {
    if links != [] {
      hide First;
      var front, l := links[..|links| - 1], links[|links| - 1];
      assert links == front + [l];
      SightingsAre(entries, front);
      var before, all := Sightings(entries, front), Sightings(entries, links);
      forall k ensures k in all <==> exists m | m in links :: First(Prior(entries, m.id), m) && KeyOf(m) == k {
        if k in before {
          var m :| m in front && First(Prior(entries, m.id), m) && KeyOf(m) == k;
          assert m in links;
        }
        if First(Prior(entries, l.id), l) && KeyOf(l) == k {
          assert l in links;
        }
      }
      forall i | 0 <= i < |before| ensures before[i].id != l.id {
        assert before[i] in before;
        var m :| m in front && First(Prior(entries, m.id), m) && KeyOf(m) == before[i];
      }
    }
  }

  lemma {:induction false} RetainedOutputs(entries: map<U32, Entry>, all: seq<PwLink>, links: seq<PwLink>, c: Context)
    requires forall l | l in links :: l in all
    ensures Decisions(Retained(entries, all), links, c) == Decisions(entries, links, c)
    ensures Sightings(Retained(entries, all), links) == Sightings(entries, links)
  {
    if links != [] {
      hide Decision, First;
      var l := links[|links| - 1];
      RetainedPrior(entries, all, l);
      RetainedOutputs(entries, all, links[..|links| - 1], c);
    }
  }

  /** The outputs of a reconciliation, link by link. */
  lemma ReconciledOutputs(entries: map<U32, Entry>, counts: Counts, links: seq<PwLink>, c: Context)
    requires UniqueIds(links)
    ensures var r := Reconciled(entries, counts, links, c);
            && r.pending == Decisions(entries, links, c)
            && r.counts == Counts(counts.seen + |Sightings(entries, links)|, counts.protected + |r.pending|,
                                  counts.decidedLate + Late(r.pending), counts.deniedAlive)
  {
    VisitAllOutputs(Books(Retained(entries, links), counts, []), links, c);
    RetainedOutputs(entries, links, links, c);
    assert [] + Decisions(entries, links, c) == Decisions(entries, links, c);
  }
}
