/** Every camera open is accounted for: from the hook, through bursts, flushes and the socket, to the history table. */
module Conservation {
  import opened Common
  import opened Text
  import K = Kernel
  import opened Accounting
  import opened DeviceIndex

  /** An event in the ring buffer, with the process that caused it. */
  datatype Raw = Raw(event: K.Event, pid: nat)

  /**
   The kernel's maps, the ring buffer, the summaries and events on their way to the daemon, and the daemon's table.
   `made` and `lost` count camera opens by verdict: those that happened, and those dropped with an event when the ring
   was full.
   */
  datatype World = World(
    kernel: K.State, ring: seq<Raw>, wire: seq<AccessEvent>, rows: map<RowKey, Row>,
    made: Tally, lost: Tally)

  /** A count per verdict: denied or not. */
  datatype Tally = Tally(denied: nat, allowed: nat) {
    function At(d: bool): nat {
      if d then denied else allowed
    }

    function Plus(d: bool, n: nat): Tally {
      if d then Tally(denied + n, allowed) else Tally(denied, allowed + n)
    }
  }

  datatype Step =
    | Opening(o: K.Open, pid: nat, ringHasRoom: bool)
    | Closing(file: K.File, closer: nat, ringHadRoom: bool)
    | Flushing(key: K.BurstKey, now: nat, window: nat, who: string)
    | Forwarding(path: string, role: Role)
    | Receiving
    | InPipeWire(denied: bool, identity: string, category: Category)
    | Pushing(rules: K.Enforcement)

  /** A burst with something to report, quiet for longer than the window. */
  predicate Stale(b: K.Burst, now: nat, window: nat) {
    b.suppressed > 0 && (if now > b.lastNs then now - b.lastNs else 0) > window
  }

  predicate Enabled(w: World, step: Step) {
    match step
    case Flushing(key, now, window, _) => key in w.kernel.bursts && Stale(w.kernel.bursts[key], now, window)
    case Forwarding(_, _) => w.ring != []
    case Receiving => w.wire != []
    case Opening(_, pid, _) => pid != 0
    case Closing(_, closer, _) => closer != 0
    case _ => true
  }

  /** What the helper makes of a raw event: a release, or an open with what was attached to it. */
  function Forwarded(raw: Raw, path: string, role: Role): AccessEvent {
    match raw.event
    case OpenEvent(_, _, denied, suppressed) => AccessEvent(path, raw.pid, role, denied, suppressed, false)
    case ReleaseEvent(_) => AccessEvent(path, raw.pid, role, false, 0, true)
  }

  /** The summary of a burst that has gone quiet. */
  function Summary(key: K.BurstKey, b: K.Burst, who: string): AccessEvent {
    AccessEvent(who, 0, if key.major == K.V4L2_MAJOR then CAMERA else AUDIO, b.denied, b.suppressed, false)
  }

  /** Capture devices are forwarded; other nodes of the same class are not. */
  predicate IsCapture(role: Role) {
    role == CAMERA || role == MIC
  }

  predicate CameraOpen(w: World, o: K.Open) {
    K.Handled(w.kernel, o) && o.major == K.V4L2_MAJOR
  }

  function Next(w: World, step: Step): World
    requires Enabled(w, step)
  {
    match step
    case Opening(o, pid, room) =>
      var reported, denied := K.Reports(w.kernel, o), K.DeniedOpen(w.kernel, o);
      var dropped := reported.Some? && !room && CameraOpen(w, o);
      w.(kernel := K.AfterOpen(w.kernel, o),
         ring := w.ring + (if reported.Some? && room then [Raw(reported.value, pid)] else []),
         made := if CameraOpen(w, o) then w.made.Plus(denied, 1) else w.made,
         lost := if dropped then w.lost.Plus(denied, RawOpens(Raw(reported.value, pid), denied)) else w.lost)
    case Closing(file, closer, room) =>
      var (handles, gone) := w.kernel.handles.Drop(file);
      w.(kernel := w.kernel.(handles := handles),
         ring := w.ring + if gone.Some? && room then [Raw(K.ReleaseEvent(gone.value), closer)] else [])
    case Flushing(key, _, _, who) =>
      w.(kernel := w.kernel.(bursts := K.Flushed(w.kernel.bursts, key)),
         wire := w.wire + [Summary(key, w.kernel.bursts[key], who)])
    case Forwarding(path, role) =>
      w.(ring := w.ring[1..],
         wire := w.wire + if IsCapture(role) then [Forwarded(w.ring[0], path, role)] else [])
    case Receiving => w.(wire := w.wire[1..], rows := RowsAfterEvent(w.rows, w.wire[0]))
    case InPipeWire(denied, identity, category) =>
      var key := RowKey(identity, category, PipeWire);
      w.(rows := Recorded(w.rows, key, if denied then 1 else 0, if denied then 0 else 1))
    case Pushing(rules) => w.(kernel := w.kernel.(rules := rules))
  }

  // ---------------------------------------------------------------------------
  // The flush
  // ---------------------------------------------------------------------------

  /** The bursts with something to report, and how much. */
  function Pending(bursts: map<K.BurstKey, K.Burst>, now: nat, window: nat): map<K.BurstKey, nat> {
    map k | k in bursts && Stale(bursts[k], now, window) :: bursts[k].suppressed
  }

  /** Every stale counter cleared; window starts and verdicts stay. */
  function FlushedAll(bursts: map<K.BurstKey, K.Burst>, keys: set<K.BurstKey>): map<K.BurstKey, K.Burst> {
    map k | k in bursts :: if k in keys then bursts[k].(suppressed := 0) else bursts[k]
  }

  /** One summary a burst, in some order. */
  ghost predicate Lists(sent: seq<AccessEvent>, order: seq<K.BurstKey>, bursts: map<K.BurstKey, K.Burst>,
                        who: K.ExeKey -> string, done: set<K.BurstKey>)
  {
    && |order| == |sent| && (forall i, j | 0 <= i < j < |order| :: order[i] != order[j])
    && (forall k :: k in order <==> k in done)
    && (forall i | 0 <= i < |sent| ::
          order[i] in bursts && sent[i] == Summary(order[i], bursts[order[i]], who(order[i].exe)))
  }

  lemma ListsGrows(sent: seq<AccessEvent>, order: seq<K.BurstKey>, bursts: map<K.BurstKey, K.Burst>,
                   who: K.ExeKey -> string, done: set<K.BurstKey>, k: K.BurstKey)
    requires Lists(sent, order, bursts, who, done) && k in bursts && k !in done
    ensures Lists(sent + [Summary(k, bursts[k], who(k.exe))], order + [k], bursts, who, done + {k})
  {
  }

  lemma FlushOneMore(bursts: map<K.BurstKey, K.Burst>, done: set<K.BurstKey>, k: K.BurstKey)
    requires k in bursts
    ensures K.Flushed(FlushedAll(bursts, done), k) == FlushedAll(bursts, done + {k})
    ensures FlushedAll(bursts, {}) == bursts
  {
  }

  /** The bursts that count opens and started more than a window ago have their counters cleared; nothing else moves. */
  function Swept(bursts: map<K.BurstKey, K.Burst>, now: nat, window: nat): map<K.BurstKey, K.Burst> {
    map k | k in bursts ::
      K.Burst(bursts[k].lastNs, if bursts[k].lastNs + window < now then 0 else bursts[k].suppressed, bursts[k].denied)
  }

  lemma PendingAt(bursts: map<K.BurstKey, K.Burst>, k: K.BurstKey, now: nat, window: nat)
    requires k in Pending(bursts, now, window)
    ensures k in bursts && Pending(bursts, now, window)[k] == bursts[k].suppressed
  {
  }

  lemma SweptIsFlushed(bursts: map<K.BurstKey, K.Burst>, now: nat, window: nat)
    ensures FlushedAll(bursts, Pending(bursts, now, window).Keys) == Swept(bursts, now, window)
    ensures forall k :: k in Pending(bursts, now, window)
                   <==> k in bursts && bursts[k].suppressed > 0 && bursts[k].lastNs + window < now
  {
  }

  /**
   One summary for each burst that has opens to report and started more than a window before now, and no other: it
   names the executable, the class, the verdict and the opens, and their number is in the total. These bursts are left
   with nothing counted; no other burst moves.
   */
  method FlushStaleBursts(h: K.Hooks, now: nat, window: nat, who: K.ExeKey -> string)
    returns (total: nat, sent: seq<AccessEvent>, ghost order: seq<K.BurstKey>)
    modifies h`coalesce
    ensures forall i, j | 0 <= i < j < |order| :: order[i] != order[j]
    ensures forall k :: k in order
                   <==> && k in old(h.coalesce) && old(h.coalesce)[k].suppressed > 0
                        && old(h.coalesce)[k].lastNs + window < now
    ensures |sent| == |order| && forall i | 0 <= i < |sent| ::
              && sent[i].exePath == who(order[i].exe) && sent[i].pid == 0 && !sent[i].released
              && sent[i].role == (if order[i].major == K.V4L2_MAJOR then CAMERA else AUDIO)
              && sent[i].denied == old(h.coalesce)[order[i]].denied
              && sent[i].additionalOpens == old(h.coalesce)[order[i]].suppressed
    ensures total == Sum(map k | k in order :: old(h.coalesce)[k].suppressed)
    ensures h.coalesce == Swept(old(h.coalesce), now, window)
  {
    hide Lists, Pending, FlushedAll, K.Flushed, Swept, Summary;
    var bursts := h.coalesce;
    var pending := Pending(bursts, now, window);
    var left := pending;
    ghost var done := {};
    total, sent, order := 0, [], [];
    ListsNothing(bursts, who);
    while left != map[]
      invariant left == pending - done && done <= pending.Keys
      invariant total + Sum(left) == Sum(pending)
      invariant h.coalesce == FlushedAll(bursts, done)
      invariant Lists(sent, order, bursts, who, done)
      decreases |left|
    {
      var k :| k in left;
      SumPick(left, k);
      PendingAt(bursts, k, now, window);
      FlushOneMore(bursts, done, k);
      ListsGrows(sent, order, bursts, who, done, k);
      OneLess(pending, done, k);
      total := total + left[k];
      sent, order := sent + [Summary(k, bursts[k], who(k.exe))], order + [k];
      h.coalesce := K.Flushed(h.coalesce, k);
      left, done := left - {k}, done + {k};
    }
    NothingLeft(pending, done);
    ListsMean(sent, order, bursts, who, done);
    SweptIsFlushed(bursts, now, window);
    PendingIs(bursts, order, now, window);
  }

  lemma PendingIs(bursts: map<K.BurstKey, K.Burst>, order: seq<K.BurstKey>, now: nat, window: nat)
    requires forall k :: k in order <==> k in Pending(bursts, now, window)
    ensures Pending(bursts, now, window) == map k | k in order :: bursts[k].suppressed
  {
  }

  lemma ListsMean(sent: seq<AccessEvent>, order: seq<K.BurstKey>, bursts: map<K.BurstKey, K.Burst>,
                  who: K.ExeKey -> string, done: set<K.BurstKey>)
    requires Lists(sent, order, bursts, who, done)
    ensures |sent| == |order| && (forall k :: k in order <==> k in done)
    ensures forall i, j | 0 <= i < j < |order| :: order[i] != order[j]
    ensures forall i | 0 <= i < |sent| :: order[i] in bursts
    ensures forall i | 0 <= i < |sent| ::
              && sent[i].exePath == who(order[i].exe) && sent[i].pid == 0 && !sent[i].released
              && sent[i].role == (if order[i].major == K.V4L2_MAJOR then CAMERA else AUDIO)
              && sent[i].denied == bursts[order[i]].denied && sent[i].additionalOpens == bursts[order[i]].suppressed
  {
  }

  /** The step opens this kind of device by this executable. */
  predicate OpensFor(step: K.Step, key: K.BurstKey) {
    step.Opening? && step.o.exe == Some(key.exe) && step.o.major == key.major
  }

  /** Without an open of its own a burst's window starts when it started. */
  lemma WindowStays(s: K.State, step: K.Step, key: K.BurstKey)
    requires !OpensFor(step, key)
    ensures key in K.Next(s, step).bursts <==> key in s.bursts
    ensures key in s.bursts ==> K.Next(s, step).bursts[key].lastNs == s.bursts[key].lastNs
  {
    hide K.DeniedOpen, K.Inc32, K.Quiet;
  }

  lemma {:induction false} WindowStartedBefore(s: K.State, steps: seq<K.Step>, i: nat, key: K.BurstKey, before: nat)
    requires i <= |steps| && (forall j | i <= j < |steps| :: !OpensFor(steps[j], key))
    requires key in K.After(s, steps[..i]).bursts ==> K.After(s, steps[..i]).bursts[key].lastNs <= before
    requires key in K.After(s, steps).bursts
    ensures K.After(s, steps).bursts[key].lastNs <= before
    decreases |steps|
  {
    hide K.Next;
    if i == |steps| {
      assert steps[..i] == steps;
    } else {
      var front := steps[..|steps| - 1];
      assert front[..i] == steps[..i];
      WindowStays(K.After(s, front), steps[|steps| - 1], key);
      WindowStartedBefore(s, front, i, key, before);
    }
  }

  /**
   Nothing stays stranded. In every run, whatever else opens, closes, is flushed or is pushed: when for longer than a
   window an executable has opened no device of a class, the next flush leaves none of its opens counted in the kernel.
   */
  lemma QuietBurstIsSwept(s: K.State, steps: seq<K.Step>, coalesceNs: nat, i: nat, key: K.BurstKey, now: nat,
                          window: nat)
    requires K.Clocked(steps, coalesceNs) && K.Past(s, 0, coalesceNs) && i <= |steps|
    requires forall j | i <= j < |steps| :: !OpensFor(steps[j], key)
    requires (if i == 0 then 0 else steps[i - 1].When()) + window < now
    ensures key in K.After(s, steps).bursts ==> Swept(K.After(s, steps).bursts, now, window)[key].suppressed == 0
  {
    hide K.After;
    if key in K.After(s, steps).bursts {
      var front := steps[..i];
      assert forall j | 0 <= j < i :: front[j] == steps[j];
      K.RunStaysPast(s, front, coalesceNs);
      WindowStartedBefore(s, steps, i, key, if i == 0 then 0 else steps[i - 1].When());
    }
  }

  lemma ListsNothing(bursts: map<K.BurstKey, K.Burst>, who: K.ExeKey -> string)
    ensures Lists([], [], bursts, who, {}) && FlushedAll(bursts, {}) == bursts
  {
  }

  lemma OneLess(pending: map<K.BurstKey, nat>, done: set<K.BurstKey>, k: K.BurstKey)
    requires k in pending && k !in done
    ensures (pending - done) - {k} == pending - (done + {k})
    ensures |(pending - done) - {k}| < |pending - done|
  {
    assert ((pending - done) - {k}).Keys == (pending - done).Keys - {k};
  }

  lemma NothingLeft(pending: map<K.BurstKey, nat>, done: set<K.BurstKey>)
    requires pending - done == map[] && done <= pending.Keys
    ensures done == pending.Keys
  {
    assert forall k | k in pending :: k !in done ==> k in pending - done;
  }

  // ---------------------------------------------------------------------------
  // Where an open can be
  // ---------------------------------------------------------------------------

  /** The camera opens of one verdict that an event in the ring stands for. */
  function RawOpens(raw: Raw, d: bool): nat {
    var e := raw.event;
    if e.OpenEvent? && e.key.major == K.V4L2_MAJOR && e.denied == d then 1 + e.suppressed else 0
  }

  function WireOpens(ev: AccessEvent, d: bool): nat {
    if ev.released || ev.role != CAMERA || ev.denied != d then 0
    else ev.additionalOpens + if ev.pid == 0 then 0 else 1
  }

  function InRing(ring: seq<Raw>, d: bool): nat {
    if ring == [] then 0 else RawOpens(ring[0], d) + InRing(ring[1..], d)
  }

  function OnWire(wire: seq<AccessEvent>, d: bool): nat {
    if wire == [] then 0 else WireOpens(wire[0], d) + OnWire(wire[1..], d)
  }

  /** The suppressed counters of camera bursts with one verdict. */
  function Counters(bursts: map<K.BurstKey, K.Burst>, d: bool): map<K.BurstKey, nat> {
    map k | k in bursts && k.major == K.V4L2_MAJOR && bursts[k].denied == d :: bursts[k].suppressed
  }

  /** A column of the kernel's camera rows. */
  function CameraColumn(rows: map<RowKey, Row>, d: bool): map<RowKey, nat> {
    map k | k in rows && k.device == Camera && k.source == Kernel :: if d then rows[k].denied else rows[k].allowed
  }

  /** All camera opens of one verdict: recorded, on their way, still counted in the kernel, or lost with a full ring. */
  ghost function Books(w: World, d: bool): nat {
    Sum(CameraColumn(w.rows, d)) + OnWire(w.wire, d) + InRing(w.ring, d) + Sum(Counters(w.kernel.bursts, d))
    + w.lost.At(d)
  }

  /** A camera node is known to the helper as a camera. */
  predicate Faithful(w: World, step: Step) {
    && (step.Forwarding? && w.ring != [] && w.ring[0].event.OpenEvent? && w.ring[0].event.key.major == K.V4L2_MAJOR ==>
          step.role == CAMERA)
    && (step.Forwarding? && w.ring != [] && w.ring[0].event.OpenEvent? && w.ring[0].event.key.major != K.V4L2_MAJOR ==>
          step.role != CAMERA)
  }

  ghost predicate Pids(w: World) {
    forall i | 0 <= i < |w.ring| :: w.ring[i].pid != 0
  }

  lemma {:induction false} RingAppend(ring: seq<Raw>, raw: Raw, d: bool)
    ensures InRing(ring + [raw], d) == InRing(ring, d) + RawOpens(raw, d)
  {
    if ring == [] {
      assert ring + [raw] == [raw] && [raw][1..] == [];
    } else {
      assert (ring + [raw])[1..] == ring[1..] + [raw];
      RingAppend(ring[1..], raw, d);
    }
  }

  lemma {:induction false} WireAppend(wire: seq<AccessEvent>, ev: AccessEvent, d: bool)
    ensures OnWire(wire + [ev], d) == OnWire(wire, d) + WireOpens(ev, d)
  {
    if wire == [] {
      assert wire + [ev] == [ev] && [ev][1..] == [];
    } else {
      assert (wire + [ev])[1..] == wire[1..] + [ev];
      WireAppend(wire[1..], ev, d);
    }
  }

  /** What one counter holds towards a verdict. */
  function Held(bursts: map<K.BurstKey, K.Burst>, k: K.BurstKey, d: bool): nat {
    if k in bursts && k.major == K.V4L2_MAJOR && bursts[k].denied == d then bursts[k].suppressed else 0
  }

  /** Replacing one burst changes the counters by what the two bursts hold. */
  lemma CountersUpdate(bursts: map<K.BurstKey, K.Burst>, k: K.BurstKey, b: K.Burst, d: bool)
    ensures Sum(Counters(bursts[k := b], d))
         == Sum(Counters(bursts, d)) - Held(bursts, k, d) + Held(bursts[k := b], k, d)
  {
    var before, after := Counters(bursts, d), Counters(bursts[k := b], d);
    assert before - {k} == after - {k};
    if k in before {
      SumPick(before, k);
    } else {
      assert before - {k} == before;
    }
    if k in after {
      SumPick(after, k);
    } else {
      assert after - {k} == after;
    }
  }

  lemma CameraColumnUpdate(rows: map<RowKey, Row>, key: RowKey, row: Row, d: bool)
    ensures CameraColumn(rows[key := row], d)
         == if key.device == Camera && key.source == Kernel
            then CameraColumn(rows, d)[key := if d then row.denied else row.allowed] else CameraColumn(rows, d)
  {
  }

  /** Recording into a column that does not saturate. */
  lemma CameraRecorded(rows: map<RowKey, Row>, key: RowKey, denied: nat, allowed: nat, d: bool)
    requires Sum(CameraColumn(rows, d)) + (if d then denied else allowed) < WORD32
    ensures Sum(CameraColumn(Recorded(rows, key, denied, allowed), d))
         == Sum(CameraColumn(rows, d))
            + if key.device == Camera && key.source == Kernel then (if d then denied else allowed) else 0
  {
    hide CameraColumn, SatAdd;
    if denied != 0 || allowed != 0 {
      var row := if key in rows then rows[key] else Row(0, 0);
      var after := Row(SatAdd(row.denied, denied), SatAdd(row.allowed, allowed));
      CameraColumnUpdate(rows, key, after, d);
      if key.device == Camera && key.source == Kernel {
        ColumnAt(rows, key, d);
        SumUpdate(CameraColumn(rows, d), key, if d then after.denied else after.allowed);
      }
    }
  }

  /** A camera row's value is in the column, and no larger than its sum. */
  lemma ColumnAt(rows: map<RowKey, Row>, key: RowKey, d: bool)
    requires key.device == Camera && key.source == Kernel
    ensures key in CameraColumn(rows, d) <==> key in rows
    ensures key in rows ==> CameraColumn(rows, d)[key] == if d then rows[key].denied else rows[key].allowed
    ensures key in rows ==> CameraColumn(rows, d)[key] <= Sum(CameraColumn(rows, d))
  {
    if key in rows {
      SumPick(CameraColumn(rows, d), key);
    }
  }

  // ---------------------------------------------------------------------------
  // What one step moves
  // ---------------------------------------------------------------------------

  /** Recorded and on the wire together: receiving an event moves its opens from one to the other. */
  lemma ReceivingKeeps(rows: map<RowKey, Row>, wire: seq<AccessEvent>, d: bool)
    requires wire != [] && Sum(CameraColumn(rows, d)) + OnWire(wire, d) < WORD32
    ensures Sum(CameraColumn(RowsAfterEvent(rows, wire[0]), d)) + OnWire(wire[1..], d)
         == Sum(CameraColumn(rows, d)) + OnWire(wire, d)
  {
    hide Recorded, CameraColumn;
    var ev := wire[0];
    if CategoryOf(ev.role).Some? && !ev.released {
      var key := RowKey(ev.exePath, CategoryOf(ev.role).value, Kernel);
      if ev.denied == d || ev.role != CAMERA {
        if ev.role != CAMERA {
          OtherDevice(rows, key, DeniedOpens(ev), AllowedOpens(ev), d);
        } else {
          CameraRecorded(rows, key, DeniedOpens(ev), AllowedOpens(ev), d);
        }
      } else {
        CameraRecorded(rows, key, DeniedOpens(ev), AllowedOpens(ev), d);
      }
    }
  }

  lemma OtherDevice(rows: map<RowKey, Row>, key: RowKey, denied: nat, allowed: nat, d: bool)
    requires key.device != Camera || key.source != Kernel
    ensures CameraColumn(Recorded(rows, key, denied, allowed), d) == CameraColumn(rows, d)
  {
    if denied != 0 || allowed != 0 {
      var row := if key in rows then rows[key] else Row(0, 0);
      CameraColumnUpdate(rows, key, Row(SatAdd(row.denied, denied), SatAdd(row.allowed, allowed)), d);
    }
  }

  lemma ForwardingKeeps(w: World, step: Step, d: bool)
    requires Enabled(w, step) && step.Forwarding? && Faithful(w, step) && Pids(w)
    ensures OnWire(Next(w, step).wire, d) + InRing(Next(w, step).ring, d) == OnWire(w.wire, d) + InRing(w.ring, d)
  {
    var ev := Forwarded(w.ring[0], step.path, step.role);
    assert w.ring[0].pid != 0;
    if IsCapture(step.role) {
      WireAppend(w.wire, ev, d);
    } else {
      assert w.wire + [] == w.wire;
    }
  }

  lemma FlushingKeeps(w: World, step: Step, d: bool)
    requires Enabled(w, step) && step.Flushing?
    ensures var n := Next(w, step);
            OnWire(n.wire, d) + Sum(Counters(n.kernel.bursts, d))
            == OnWire(w.wire, d) + Sum(Counters(w.kernel.bursts, d))
  {
    hide Counters;
    var bursts, key := w.kernel.bursts, step.key;
    var b := bursts[key];
    WireAppend(w.wire, Summary(key, b, step.who), d);
    CountersUpdate(bursts, key, b.(suppressed := 0), d);
  }

  /** An open inside a burst's window is counted there, towards the burst's verdict. */
  lemma QuietOpening(w: World, step: Step, d: bool)
    requires Enabled(w, step) && step.Opening? && CameraOpen(w, step.o) && K.Reports(w.kernel, step.o).None?
    requires Sum(Counters(w.kernel.bursts, true)) + Sum(Counters(w.kernel.bursts, false)) + 1 < WORD32
    ensures var n, key := Next(w, step), K.BurstKey(step.o.exe.value, step.o.major);
            && key in w.kernel.bursts && n.ring == w.ring && n.lost == w.lost
            && n.made == w.made.Plus(K.DeniedOpen(w.kernel, step.o), 1)
            && Sum(Counters(n.kernel.bursts, d))
               == Sum(Counters(w.kernel.bursts, d)) + if w.kernel.bursts[key].denied == d then 1 else 0
  {
    hide Counters, K.DeniedOpen;
    var bursts, key := w.kernel.bursts, K.BurstKey(step.o.exe.value, step.o.major);
    CounterFits(bursts, key);
    CountersUpdate(bursts, key, bursts[key].(suppressed := K.Inc32(bursts[key].suppressed)), d);
    assert w.ring + [] == w.ring;
  }

  /** What an open that reports leaves. */
  lemma LoudOpeningState(w: World, step: Step)
    requires Enabled(w, step) && step.Opening? && CameraOpen(w, step.o) && K.Reports(w.kernel, step.o).Some?
    ensures var n, denied := Next(w, step), K.DeniedOpen(w.kernel, step.o);
            var key := K.BurstKey(step.o.exe.value, step.o.major);
            var e := K.OpenEvent(key, step.o.minor, denied, K.Stranded(w.kernel.bursts, key));
            && n.kernel.bursts == w.kernel.bursts[key := K.Burst(step.o.now, 0, denied)]
            && n.made == w.made.Plus(denied, 1)
            && (if step.ringHasRoom then n.ring == w.ring + [Raw(e, step.pid)] && n.lost == w.lost
                else n.ring == w.ring && n.lost == w.lost.Plus(denied, 1 + K.Stranded(w.kernel.bursts, key)))
  {
    hide K.DeniedOpen, K.Quiet;
    assert w.ring + [] == w.ring;
  }

  /** An open that reports carries off what its burst had counted, under its own verdict. */
  lemma LoudOpening(w: World, step: Step, d: bool)
    requires Enabled(w, step) && step.Opening? && CameraOpen(w, step.o) && K.Reports(w.kernel, step.o).Some?
    ensures var n, denied := Next(w, step), K.DeniedOpen(w.kernel, step.o);
            var key := K.BurstKey(step.o.exe.value, step.o.major);
            && n.made == w.made.Plus(denied, 1)
            && InRing(n.ring, d) + Sum(Counters(n.kernel.bursts, d)) + n.lost.At(d)
               == InRing(w.ring, d) + Sum(Counters(w.kernel.bursts, d)) + w.lost.At(d)
                  - Held(w.kernel.bursts, key, d) + if denied == d then 1 + K.Stranded(w.kernel.bursts, key) else 0
  {
    hide Counters, K.DeniedOpen, K.Reports, Next;
    var bursts, denied := w.kernel.bursts, K.DeniedOpen(w.kernel, step.o);
    var key := K.BurstKey(step.o.exe.value, step.o.major);
    LoudOpeningState(w, step);
    CountersUpdate(bursts, key, K.Burst(step.o.now, 0, denied), d);
    RingAppend(w.ring, Raw(K.OpenEvent(key, step.o.minor, denied, K.Stranded(bursts, key)), step.pid), d);
  }

  lemma CounterFits(bursts: map<K.BurstKey, K.Burst>, k: K.BurstKey)
    requires k in bursts && k.major == K.V4L2_MAJOR
    ensures bursts[k].suppressed <= Sum(Counters(bursts, bursts[k].denied))
  {
    SumPick(Counters(bursts, bursts[k].denied), k);
  }

  predicate CameraOpening(w: World, step: Step) {
    step.Opening? && CameraOpen(w, step.o)
  }

  /** Opens of other devices, and opens that are none of the hook's business, touch no camera counter. */
  lemma OtherOpening(w: World, step: Step, d: bool)
    requires Enabled(w, step) && step.Opening? && !CameraOpen(w, step.o)
    ensures var n := Next(w, step);
            && InRing(n.ring, d) == InRing(w.ring, d) && n.lost == w.lost && n.made == w.made
            && Sum(Counters(n.kernel.bursts, d)) == Sum(Counters(w.kernel.bursts, d))
  {
    hide Counters, K.DeniedOpen, K.Quiet;
    var reported := K.Reports(w.kernel, step.o);
    assert w.ring + [] == w.ring;
    if reported.Some? {
      RingAppend(w.ring, Raw(reported.value, step.pid), d);
    }
    if K.Handled(w.kernel, step.o) {
      var key := K.BurstKey(step.o.exe.value, step.o.major);
      CountersUpdate(w.kernel.bursts, key, Next(w, step).kernel.bursts[key], d);
    }
  }

  lemma ClosingKeeps(w: World, step: Step, d: bool)
    requires Enabled(w, step) && step.Closing?
    ensures InRing(Next(w, step).ring, d) == InRing(w.ring, d)
  {
    var gone := w.kernel.handles.Drop(step.file).1;
    assert w.ring + [] == w.ring;
    if gone.Some? {
      RingAppend(w.ring, Raw(K.ReleaseEvent(gone.value), step.closer), d);
    }
  }

  /** Every step but a camera open leaves each column's books as they are. */
  lemma StepKeepsBooks(w: World, step: Step, d: bool)
    requires Enabled(w, step) && Faithful(w, step) && Pids(w) && Books(w, d) < WORD32 && !CameraOpening(w, step)
    ensures Books(Next(w, step), d) == Books(w, d) && Next(w, step).made == w.made
  {
    hide Counters, CameraColumn, InRing, OnWire, Faithful, Pids, CameraOpen;
    match step {
      case Opening(_, _, _) => OtherOpening(w, step, d);
      case Closing(_, _, _) => ClosingKeeps(w, step, d);
      case Flushing(_, _, _, _) => FlushingKeeps(w, step, d);
      case Forwarding(_, _) => ForwardingKeeps(w, step, d);
      case Receiving => ReceivingKeeps(w.rows, w.wire, d);
      case InPipeWire(denied, identity, category) =>
        OtherDevice(w.rows, RowKey(identity, category, PipeWire), if denied then 1 else 0, if denied then 0 else 1, d);
      case Pushing(_) =>
    }
  }

  /** A camera open adds one to the books of both columns together, and, if its burst has its verdict, to its own. */
  lemma CameraOpeningBooks(w: World, step: Step)
    requires Enabled(w, step) && CameraOpening(w, step) && Books(w, true) + Books(w, false) + 1 < WORD32
    ensures var n, denied := Next(w, step), K.DeniedOpen(w.kernel, step.o);
            var key := K.BurstKey(step.o.exe.value, step.o.major);
            && n.made == w.made.Plus(denied, 1)
            && Books(n, true) + Books(n, false) == Books(w, true) + Books(w, false) + 1
            && ((key in w.kernel.bursts ==> w.kernel.bursts[key].denied == denied) ==>
                  Books(n, denied) == Books(w, denied) + 1 && Books(n, !denied) == Books(w, !denied))
  {
    hide Counters, CameraColumn, InRing, OnWire, K.DeniedOpen;
    if K.Reports(w.kernel, step.o).None? {
      QuietOpening(w, step, true);
      QuietOpening(w, step, false);
    } else {
      LoudOpening(w, step, true);
      LoudOpening(w, step, false);
    }
  }

  lemma StepKeepsPids(w: World, step: Step)
    requires Enabled(w, step) && Pids(w)
    ensures Pids(Next(w, step))
  {
  }

  // ---------------------------------------------------------------------------
  // Runs
  // ---------------------------------------------------------------------------

  ghost predicate IsRun(ws: seq<World>, steps: seq<Step>) {
    && |ws| == |steps| + 1
    && forall i | 0 <= i < |steps| ::
         Enabled(ws[i], steps[i]) && Faithful(ws[i], steps[i]) && ws[i + 1] == Next(ws[i], steps[i])
  }

  /** Nothing open yet: the table may hold rows of earlier days. */
  ghost predicate Fresh(w: World) {
    w.ring == [] && w.wire == [] && w.kernel.bursts == map[] && w.made == Tally(0, 0) && w.lost == Tally(0, 0)
  }

  /** The invariant of a run: the books of both columns together are what they were plus the opens made. */
  ghost predicate Balanced(start: World, w: World, steps: nat) {
    && Pids(w) && w.made.denied + w.made.allowed <= steps
    && Books(w, true) + Books(w, false) == Books(start, true) + Books(start, false) + w.made.denied + w.made.allowed
  }

  lemma StepKeepsBalanced(start: World, w: World, step: Step, i: nat)
    requires Enabled(w, step) && Faithful(w, step) && Balanced(start, w, i)
    requires Books(start, true) + Books(start, false) + i + 1 < WORD32
    ensures Balanced(start, Next(w, step), i + 1)
  {
    hide Books, Next, Enabled, Faithful, Pids, CameraOpening;
    StepKeepsPids(w, step);
    if CameraOpening(w, step) {
      CameraOpeningBooks(w, step);
    } else {
      StepKeepsBooks(w, step, true);
      StepKeepsBooks(w, step, false);
    }
  }

  /**
   Over every run of opens, closes, flushes, deliveries and pushes: the camera opens made are the denied and allowed
   ones the table has gained, those in events still on their way, those still counted in the kernel, and those lost with
   a full ring.
   */
  lemma {:induction false} OpensAreConserved(ws: seq<World>, steps: seq<Step>, i: nat)
    requires IsRun(ws, steps) && Fresh(ws[0]) && i <= |steps|
    requires Books(ws[0], true) + Books(ws[0], false) + |steps| < WORD32
    ensures Balanced(ws[0], ws[i], i)
  {
    hide Books, Next, Enabled, Faithful, Balanced;
    if i == 0 {
      FreshIsBalanced(ws[0]);
    } else {
      OpensAreConserved(ws, steps, i - 1);
      StepKeepsBalanced(ws[0], ws[i - 1], steps[i - 1], i - 1);
    }
  }

  lemma FreshIsBalanced(w: World)
    requires Fresh(w)
    ensures Balanced(w, w, 0)
  {
    hide Books;
  }

  /** When each kind of step can be taken; pid 0 is no process. */
  lemma EnabledIff(w: World, step: Step)
    ensures Enabled(w, step)
       <==> match step
            case Opening(_, pid, _) => pid > 0
            case Closing(_, closer, _) => closer > 0
            case Flushing(key, now, window, _) =>
              && key in w.kernel.bursts && w.kernel.bursts[key].suppressed > 0
              && w.kernel.bursts[key].lastNs + window < now
            case Forwarding(_, _) => |w.ring| > 0
            case Receiving => |w.wire| > 0
            case InPipeWire(_, _, _) => true
            case Pushing(_) => true
  {
  }

  /** Nothing in the ring or on the wire, and nothing counted in a camera's burst. */
  predicate Delivered(w: World) {
    && w.ring == [] && w.wire == []
    && forall k | k in w.kernel.bursts && k.major == K.V4L2_MAJOR :: w.kernel.bursts[k].suppressed == 0
  }

  lemma {:induction false} SumOfZeros<T>(m: map<T, nat>)
    requires forall k | k in m :: m[k] == 0
    ensures Sum(m) == 0
    decreases |m|
  {
    if k :| k in m {
      SumPick(m, k);
      assert (m - {k}).Keys == m.Keys - {k};
      SumOfZeros(m - {k});
    }
  }

  lemma DeliveredBooks(w: World, d: bool)
    requires Delivered(w)
    ensures Books(w, d) == Sum(CameraColumn(w.rows, d)) + w.lost.At(d)
  {
    hide CameraColumn;
    SumOfZeros(Counters(w.kernel.bursts, d));
  }

  /**
   Once everything is delivered, the two columns of the table have gained exactly the camera opens made, but for those
   lost with a full ring.
   */
  lemma DeliveredOpensAreRecorded(ws: seq<World>, steps: seq<Step>, i: nat)
    requires IsRun(ws, steps) && Fresh(ws[0]) && i <= |steps| && Delivered(ws[i])
    requires Sum(CameraColumn(ws[0].rows, true)) + Sum(CameraColumn(ws[0].rows, false)) + |steps| < WORD32
    ensures var was := Sum(CameraColumn(ws[0].rows, true)) + Sum(CameraColumn(ws[0].rows, false));
            var now := Sum(CameraColumn(ws[i].rows, true)) + Sum(CameraColumn(ws[i].rows, false));
            now - was == ws[i].made.denied + ws[i].made.allowed - ws[i].lost.denied - ws[i].lost.allowed
  {
    hide CameraColumn, Enabled, Next, Faithful, Books, Delivered;
    FreshIsDelivered(ws[0]);
    DeliveredBooks(ws[0], true);
    DeliveredBooks(ws[0], false);
    DeliveredBooks(ws[i], true);
    DeliveredBooks(ws[i], false);
    OpensAreConserved(ws, steps, i);
  }

  lemma FreshIsDelivered(w: World)
    requires Fresh(w)
    ensures Delivered(w)
  {
  }

  /** An executable's camera opens all get one verdict. */
  ghost predicate Steady(ws: seq<World>, steps: seq<Step>, verdict: K.ExeKey -> bool) {
    forall i | 0 <= i < |steps| && i < |ws| && CameraOpening(ws[i], steps[i]) ::
      K.DeniedOpen(ws[i].kernel, steps[i].o) == verdict(steps[i].o.exe.value)
  }

  ghost predicate BurstsSteady(w: World, verdict: K.ExeKey -> bool) {
    forall k | k in w.kernel.bursts && k.major == K.V4L2_MAJOR :: w.kernel.bursts[k].denied == verdict(k.exe)
  }

  lemma StepKeepsBurstsSteady(w: World, step: Step, verdict: K.ExeKey -> bool)
    requires Enabled(w, step) && BurstsSteady(w, verdict)
    requires CameraOpening(w, step) ==> K.DeniedOpen(w.kernel, step.o) == verdict(step.o.exe.value)
    ensures BurstsSteady(Next(w, step), verdict)
  {
    hide K.DeniedOpen, K.Inc32;
  }

  /** While each executable's verdict stays what it is, the denied and the allowed column are each exact. */
  lemma {:induction false} ColumnsAreExact(ws: seq<World>, steps: seq<Step>, i: nat, verdict: K.ExeKey -> bool, d: bool)
    requires IsRun(ws, steps) && Fresh(ws[0]) && i <= |steps| && Steady(ws, steps, verdict)
    requires Books(ws[0], true) + Books(ws[0], false) + |steps| < WORD32
    ensures Books(ws[i], d) == Books(ws[0], d) + ws[i].made.At(d)
    ensures BurstsSteady(ws[i], verdict)
  {
    hide Books, Next, Enabled, Faithful, Pids, K.DeniedOpen;
    if i > 0 {
      var w, step := ws[i - 1], steps[i - 1];
      ColumnsAreExact(ws, steps, i - 1, verdict, d);
      OpensAreConserved(ws, steps, i - 1);
      StepKeepsBurstsSteady(w, step, verdict);
      if CameraOpening(w, step) {
        CameraOpeningBooks(w, step);
      } else {
        StepKeepsBooks(w, step, d);
      }
    }
  }

  // ---------------------------------------------------------------------------
  // Where exactness stops
  // ---------------------------------------------------------------------------

  /**
   A rule that changes inside a burst moves opens between the columns. The first open after the window carries the old
   burst's counter under its own verdict, so opens that were allowed are recorded as denied.
   */
  lemma RevokedMidBurst(w: World, step: Step)
    requires Enabled(w, step) && CameraOpening(w, step) && K.Reports(w.kernel, step.o).Some? && step.ringHasRoom
    requires K.DeniedOpen(w.kernel, step.o)
    requires var key := K.BurstKey(step.o.exe.value, step.o.major);
             key in w.kernel.bursts && !w.kernel.bursts[key].denied
    ensures var n, moved := Next(w, step), w.kernel.bursts[K.BurstKey(step.o.exe.value, step.o.major)].suppressed;
            Books(n, true) == Books(w, true) + 1 + moved && Books(n, false) == Books(w, false) - moved
  {
    hide Counters, CameraColumn, InRing, OnWire, K.DeniedOpen, K.Reports;
    LoudOpening(w, step, true);
    LoudOpening(w, step, false);
    LoudOpeningState(w, step);
  }

  /** The open meets a burst of the other verdict and either joins it or carries its counter off. */
  predicate Mixes(w: World, step: Step)
    requires CameraOpening(w, step)
  {
    var key, bursts := K.BurstKey(step.o.exe.value, step.o.major), w.kernel.bursts;
    && key in bursts && bursts[key].denied != K.DeniedOpen(w.kernel, step.o)
    && (K.Reports(w.kernel, step.o).None? || bursts[key].suppressed > 0)
  }

  /**
   One open keeps both columns exact, whatever its verdict and whether or not the ring has room, if and only if it does
   not mix: no burst of the other verdict, or one that it closes with nothing counted.
   */
  lemma ColumnsStayExactIff(w: World, step: Step)
    requires Enabled(w, step) && CameraOpening(w, step) && Books(w, true) + Books(w, false) + 1 < WORD32
    ensures var n := Next(w, step);
            (forall d :: Books(n, d) - Books(w, d) == n.made.At(d) - w.made.At(d)) <==> !Mixes(w, step)
  {
    hide Counters, CameraColumn, InRing, OnWire, K.DeniedOpen;
    if K.Reports(w.kernel, step.o).None? {
      QuietOpening(w, step, true);
      QuietOpening(w, step, false);
    } else {
      LoudOpening(w, step, true);
      LoudOpening(w, step, false);
    }
  }

  /** Over every run the columns are exact as long as no open mixes. */
  ghost predicate Unmixed(ws: seq<World>, steps: seq<Step>) {
    forall i | 0 <= i < |steps| && i < |ws| && CameraOpening(ws[i], steps[i]) :: !Mixes(ws[i], steps[i])
  }

  lemma {:induction false} UnmixedColumnsAreExact(ws: seq<World>, steps: seq<Step>, i: nat, d: bool)
    requires IsRun(ws, steps) && Fresh(ws[0]) && i <= |steps| && Unmixed(ws, steps)
    requires Books(ws[0], true) + Books(ws[0], false) + |steps| < WORD32
    ensures Books(ws[i], d) == Books(ws[0], d) + ws[i].made.At(d)
  {
    hide Books, Next, Enabled, Faithful, Pids, CameraOpening, Mixes;
    if i > 0 {
      var w, step := ws[i - 1], steps[i - 1];
      UnmixedColumnsAreExact(ws, steps, i - 1, d);
      OpensAreConserved(ws, steps, i - 1);
      if CameraOpening(w, step) {
        ColumnsStayExactIff(w, step);
      } else {
        StepKeepsBooks(w, step, d);
      }
    }
  }

  /** Delivering a camera open's event keeps both books exactly if it is labelled a camera; else its opens are gone. */
  lemma KeptIffLabelled(w: World, step: Step, d: bool)
    requires Enabled(w, step) && step.Forwarding? && Pids(w)
    requires w.ring[0].event.OpenEvent? && w.ring[0].event.key.major == K.V4L2_MAJOR
    ensures Books(Next(w, step), d) == Books(w, d) - if step.role == CAMERA then 0 else RawOpens(w.ring[0], d)
    ensures RawOpens(w.ring[0], w.ring[0].event.denied) > 0
  {
    hide Counters, CameraColumn;
    assert w.ring[0].pid != 0;
    if IsCapture(step.role) {
      WireAppend(w.wire, Forwarded(w.ring[0], step.path, step.role), d);
    } else {
      assert w.wire + [] == w.wire;
    }
  }

  /**
   A close raises a release exactly if it drops the last tracked handle of the executable and the ring has room: that
   executable's, from the process that closed.
   */
  lemma ClosingReleases(w: World, step: Step)
    requires Enabled(w, step) && step.Closing? && K.Counted(w.kernel.handles)
    ensures var files := w.kernel.handles.files;
            Next(w, step).ring
            == if step.file in files && K.HeldBy(files, files[step.file]) == {step.file} && step.ringHadRoom
               then w.ring + [Raw(K.ReleaseEvent(files[step.file]), step.closer)] else w.ring
    ensures Next(w, step).kernel.handles.files == w.kernel.handles.files - {step.file}
    ensures Next(w, step).wire == w.wire && Next(w, step).rows == w.rows
  {
    hide K.Counted, K.HeldBy, K.Dec32;
    K.DropKeepsCounted(w.kernel.handles, step.file);
    assert w.ring + [] == w.ring;
  }

  /**
   What the helper passes on: exactly the events of cameras and microphones, in order, each with its process, verdict
   and the opens it carries; a release as a release.
   */
  lemma ForwardedIff(w: World, step: Step)
    requires Enabled(w, step) && step.Forwarding?
    ensures Next(w, step).ring == w.ring[1..] && Next(w, step).rows == w.rows && Next(w, step).kernel == w.kernel
    ensures step.role != CAMERA && step.role != MIC ==> Next(w, step).wire == w.wire
    ensures step.role == CAMERA || step.role == MIC ==>
              exists ev :: && Next(w, step).wire == w.wire + [ev] && ev.role == step.role
                           && ev.exePath == step.path && ev.pid == w.ring[0].pid
                           && ev.released == w.ring[0].event.ReleaseEvent?
                           && (ev.released ==> !ev.denied && ev.additionalOpens == 0)
                           && (w.ring[0].event.OpenEvent? ==>
                                 && ev.denied == w.ring[0].event.denied
                                 && ev.additionalOpens == w.ring[0].event.suppressed)
  {
    assert w.wire + [] == w.wire;
    var ev := Forwarded(w.ring[0], step.path, step.role);
  }

  /** The label of the event at the head of the ring is the one the device index gives its number. */
  predicate Labelled(w: World, step: Step, index: Index, dirs: Directories) {
    && step.Forwarding? && w.ring != [] && w.ring[0].event.OpenEvent?
    && var number := (w.ring[0].event.key.major, w.ring[0].event.minor);
       step.role == LabelOf(LookedUp(index, number, dirs), number)
  }

  /**
   With the labels of the device index, delivering a camera open's event keeps the books if and only if the camera's
   number was known from the last scan or is borne now by a node with a name the scan takes. Otherwise the opens it
   stands for are in no column any more, although the kernel answered them. Other devices are never taken for a camera.
   */
  lemma ForgottenIffUnnamed(w: World, step: Step, index: Index, dirs: Directories)
    requires Enabled(w, step) && Pids(w) && Labelled(w, step, index, dirs) && RolesFit(index)
    ensures var e := w.ring[0].event;
            var known := (K.V4L2_MAJOR, e.minor) in index || Named(dirs, e.minor);
            && (e.key.major == K.V4L2_MAJOR ==> ((forall d :: Books(Next(w, step), d) == Books(w, d)) <==> known))
            && (Faithful(w, step) <==> (e.key.major == K.V4L2_MAJOR ==> known))
  {
    hide Books, Next, RolesFit, Named, LabelOf, LookedUp, RawOpens;
    var e := w.ring[0].event;
    CameraLabelIff(index, (e.key.major, e.minor), dirs);
    if e.key.major == K.V4L2_MAJOR {
      KeptIffLabelled(w, step, true);
      KeptIffLabelled(w, step, false);
    }
  }

  /**
   The summary of a capture-device burst has a role the daemon does not know: its opens reach neither count nor table.
   */
  lemma AudioSummariesAreIgnored(key: K.BurstKey, b: K.Burst, who: string, rows: map<RowKey, Row>, blocked: nat)
    requires key.major != K.V4L2_MAJOR
    ensures RowsAfterEvent(rows, Summary(key, b, who)) == rows
    ensures BlockedAfterEvent(blocked, Summary(key, b, who)) == blocked
  {
  }
}
