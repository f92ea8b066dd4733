/** The daemon's counting: what a kernel event is worth, the history table and the blocked counter. */
module Accounting {
  import opened Text
  import opened Common

  const WORD32: nat := 0x1_0000_0000

  // ---------------------------------------------------------------------------
  // Sums over maps
  // ---------------------------------------------------------------------------

  ghost function Sum<K>(m: map<K, nat>): nat {
    if m == map[] then 0
    else
      var k :| k in m;
      m[k] + Sum(m - {k})
  }

  /** Any key may be counted first. */
  lemma {:induction false} SumPick<K>(m: map<K, nat>, k: K)
    requires k in m
    ensures Sum(m) == m[k] + Sum(m - {k})
    decreases |m|
  {
    var first :| first in m && Sum(m) == m[first] + Sum(m - {first});
    if first != k {
      assert (m - {first}).Keys == m.Keys - {first} && (m - {k}).Keys == m.Keys - {k};
      SumPick(m - {first}, k);
      SumPick(m - {k}, first);
      assert (m - {first}) - {k} == (m - {k}) - {first};
    }
  }

  lemma SumUpdate<K>(m: map<K, nat>, k: K, v: nat)
    ensures Sum(m[k := v]) == Sum(m) + v - if k in m then m[k] else 0
  {
    SumPick(m[k := v], k);
    assert m[k := v] - {k} == m - {k};
    if k in m {
      SumPick(m, k);
    } else {
      assert m - {k} == m;
    }
  }

  // ---------------------------------------------------------------------------
  // Events and rows
  // ---------------------------------------------------------------------------

  datatype Role = CAMERA | MIC | AUDIO | Elsewhere

  /** What the helper tells the daemon. Pid 0 marks the summary of a burst. */
  datatype AccessEvent = AccessEvent(
    exePath: string, pid: nat, role: Role, denied: bool, additionalOpens: nat, released: bool)

  datatype Source = Kernel | PipeWire

  datatype RowKey = RowKey(identity: string, device: Category, source: Source)

  datatype Row = Row(denied: nat, allowed: nat)

  function Add32(x: nat, y: nat): (r: nat)
    ensures r < WORD32 && (x + y < WORD32 ==> r == x + y)
  {
    (x + y) % WORD32
  }

  function SatAdd(x: nat, y: nat): (r: nat)
    ensures r < WORD32 && r <= x + y && (r == x + y <==> x + y < WORD32)
  {
    if x + y >= WORD32 then WORD32 - 1 else x + y
  }

  /** The opens behind an event: what a summary counts, or one and what the event carries. */
  function Opens(ev: AccessEvent): nat {
    if ev.pid == 0 then ev.additionalOpens else Add32(1, ev.additionalOpens)
  }

  function DeniedOpens(ev: AccessEvent): nat {
    if !ev.denied then 0 else Opens(ev)
  }

  function AllowedOpens(ev: AccessEvent): nat {
    if ev.denied then 0 else Opens(ev)
  }

  /** Recording nothing makes no row. */
  function Recorded(rows: map<RowKey, Row>, key: RowKey, denied: nat, allowed: nat): map<RowKey, Row> {
    if denied == 0 && allowed == 0 then rows
    else
      var row := if key in rows then rows[key] else Row(0, 0);
      rows[key := Row(SatAdd(row.denied, denied), SatAdd(row.allowed, allowed))]
  }

  function CategoryOf(role: Role): Option<Category> {
    match role
    case CAMERA => Some(Camera)
    case MIC => Some(Microphone)
    case _ => None
  }

  /** Releases and other roles count nothing; an allowed microphone open is not recorded unless it is a summary. */
  function RowsAfterEvent(rows: map<RowKey, Row>, ev: AccessEvent): map<RowKey, Row> {
    if CategoryOf(ev.role).None? || ev.released then rows
    else
      var category := CategoryOf(ev.role).value;
      if !ev.denied && ev.pid != 0 && category != Camera then rows
      else Recorded(rows, RowKey(ev.exePath, category, Kernel), DeniedOpens(ev), AllowedOpens(ev))
  }

  function BlockedAfterEvent(blocked: nat, ev: AccessEvent): nat {
    if CategoryOf(ev.role).None? || ev.released then blocked else Add32(blocked, DeniedOpens(ev))
  }

  /** Column sums of the table. */
  function DeniedColumn(rows: map<RowKey, Row>): map<RowKey, nat> {
    map k | k in rows :: rows[k].denied
  }

  function AllowedColumn(rows: map<RowKey, Row>): map<RowKey, nat> {
    map k | k in rows :: rows[k].allowed
  }

  class Daemon {
    var blocked: nat
    var rows: map<RowKey, Row>

    /** The event log's own count: one for a denial. */
    method LogEvent(denied: bool)
      modifies `blocked
      ensures blocked == if denied then Add32(old(blocked), 1) else old(blocked)
    {
      if denied {
        blocked := Add32(blocked, 1);
      }
    }

    method Record(key: RowKey, denied: nat, allowed: nat)
      modifies `rows
      ensures rows == Recorded(old(rows), key, denied, allowed)
    {
      if denied == 0 && allowed == 0 {
        return;
      }
      if key !in rows {
        rows := rows[key := Row(0, 0)];
      }
      var e := rows[key];
      rows := rows[key := Row(SatAdd(e.denied, denied), SatAdd(e.allowed, allowed))];
    }

    method HandleEvent(ev: AccessEvent)
      modifies this
      requires blocked < WORD32 && ev.additionalOpens < WORD32
      ensures blocked < WORD32
      ensures rows == RowsAfterEvent(old(rows), ev)
      ensures blocked == BlockedAfterEvent(old(blocked), ev)
    {
      var category;
      match ev.role {
        case CAMERA => category := Camera;
        case MIC => category := Microphone;
        case _ => return;
      }
      if ev.released {
        return;
      }
      var key := RowKey(ev.exePath, category, Kernel);
      if ev.pid == 0 {
        if ev.denied {
          blocked := Add32(blocked, DeniedOpens(ev));
          Record(key, DeniedOpens(ev), 0);
        } else {
          Record(key, 0, AllowedOpens(ev));
        }
        return;
      }
      LogEvent(ev.denied);
      // The log counted one of the denied opens: add only the rest, in 32-bit arithmetic.
      blocked := Add32(blocked, (DeniedOpens(ev) + WORD32 - if ev.denied then 1 else 0) % WORD32);
      Wrapped(old(blocked), DeniedOpens(ev));
      if ev.denied {
        Record(key, DeniedOpens(ev), 0);
      } else if category == Camera {
        Record(key, 0, AllowedOpens(ev));
      }
    }

    /** A denial in the PipeWire graph: the log's one and one in the table. */
    method LogDenied(identity: string, category: Category)
      modifies this
      ensures blocked == Add32(old(blocked), 1)
      ensures rows == Recorded(old(rows), RowKey(identity, category, PipeWire), 1, 0)
    {
      LogEvent(true);
      Record(RowKey(identity, category, PipeWire), 1, 0);
    }

    method LogAllowed(identity: string, category: Category)
      modifies this
      ensures blocked == old(blocked)
      ensures rows == Recorded(old(rows), RowKey(identity, category, PipeWire), 0, 1)
    {
      LogEvent(false);
      Record(RowKey(identity, category, PipeWire), 0, 1);
    }
  }

  lemma ModOnce(n: nat)
    requires n < 2 * WORD32
    ensures n % WORD32 == if n < WORD32 then n else n - WORD32
  {
  }

  lemma Wrapped(x: nat, n: nat)
    requires x < WORD32 && n < WORD32
    ensures Add32(Add32(x, 1), (n + WORD32 - 1) % WORD32) == Add32(x, n)
    ensures Add32(x, (n + WORD32) % WORD32) == Add32(x, n)
  {
    ModOnce(n + WORD32);
    ModOnce(n + WORD32 - 1);
    ModOnce(x + 1);
    ModOnce(x + n);
    ModOnce(Add32(x, 1) + (n + WORD32 - 1) % WORD32);
  }

  // ---------------------------------------------------------------------------
  // The counter follows the table
  // ---------------------------------------------------------------------------

  /** What a row has counted so far. */
  function RowAt(rows: map<RowKey, Row>, key: RowKey): Row {
    if key in rows then rows[key] else Row(0, 0)
  }

  /** The counts are 32-bit words. */
  predicate Words(rows: map<RowKey, Row>) {
    forall k | k in rows :: rows[k].denied < WORD32 && rows[k].allowed < WORD32
  }

  /** One record adds its count to the sum of a column, or less if and only if it saturates its row. */
  lemma RecordedDenied(rows: map<RowKey, Row>, key: RowKey, denied: nat, allowed: nat)
    requires Words(rows)
    ensures var before, after := Sum(DeniedColumn(rows)), Sum(DeniedColumn(Recorded(rows, key, denied, allowed)));
            && before <= after <= before + denied
            && (after == before + denied <==> RowAt(rows, key).denied + denied < WORD32)
  {
    var column := DeniedColumn(rows);
    if denied != 0 || allowed != 0 {
      var counts := SatAdd(RowAt(rows, key).denied, denied);
      SumUpdate(column, key, counts);
      assert DeniedColumn(Recorded(rows, key, denied, allowed)) == column[key := counts];
    }
  }

  lemma RecordedAllowed(rows: map<RowKey, Row>, key: RowKey, denied: nat, allowed: nat)
    requires Words(rows)
    ensures var before, after := Sum(AllowedColumn(rows)), Sum(AllowedColumn(Recorded(rows, key, denied, allowed)));
            && before <= after <= before + allowed
            && (after == before + allowed <==> RowAt(rows, key).allowed + allowed < WORD32)
  {
    var column := AllowedColumn(rows);
    if denied != 0 || allowed != 0 {
      var counts := SatAdd(RowAt(rows, key).allowed, allowed);
      SumUpdate(column, key, counts);
      assert AllowedColumn(Recorded(rows, key, denied, allowed)) == column[key := counts];
    }
  }

  /** How many opens an event stands for: those it carries, and the one it is about unless it is a summary. */
  function OpensIn(ev: AccessEvent): nat {
    ev.additionalOpens + if ev.pid == 0 then 0 else 1
  }

  /**
   What one event is worth. A camera's or microphone's open that was denied adds its opens to the denied count of the
   executable's row for that device and to the blocked counter; one that was let through adds them to the allowed count,
   but a microphone's only as a summary. A release, or any other role, is worth nothing. No other row moves.
   */
  lemma EventIsWorth(rows: map<RowKey, Row>, blocked: nat, ev: AccessEvent)
    requires blocked < WORD32 && OpensIn(ev) < WORD32
    ensures var device := if ev.role == CAMERA then Camera else Microphone;
            var key := RowKey(ev.exePath, device, Kernel);
            var counted := (ev.role == CAMERA || ev.role == MIC) && !ev.released;
            var recorded := counted && (ev.denied || ev.role == CAMERA || ev.pid == 0);
            var was, now := RowAt(rows, key), RowAt(RowsAfterEvent(rows, ev), key);
            && (recorded && ev.denied && was.denied + OpensIn(ev) < WORD32 && was.allowed < WORD32 ==>
                  now == Row(was.denied + OpensIn(ev), was.allowed))
            && (recorded && !ev.denied && was.allowed + OpensIn(ev) < WORD32 && was.denied < WORD32 ==>
                  now == Row(was.denied, was.allowed + OpensIn(ev)))
            && (!recorded ==> RowsAfterEvent(rows, ev) == rows)
            && (forall k | k != key :: RowAt(RowsAfterEvent(rows, ev), k) == RowAt(rows, k))
            && BlockedAfterEvent(blocked, ev)
               == (blocked + if counted && ev.denied then OpensIn(ev) else 0) % WORD32
  {
    OpensAreCounted(ev);
    hide Opens;
  }

  lemma OpensAreCounted(ev: AccessEvent)
    requires OpensIn(ev) < WORD32
    ensures Opens(ev) == OpensIn(ev)
  {
  }

  /** What reaches the daemon: kernel events of every kind, and the PipeWire layer's decisions. */
  datatype Input =
    | FromKernel(ev: AccessEvent)
    | Denial(identity: string, category: Category)
    | Allowance(allowedIdentity: string, allowedCategory: Category)

  function RowsAfter(rows: map<RowKey, Row>, inputs: seq<Input>): map<RowKey, Row> {
    if inputs == [] then rows
    else
      var before := RowsAfter(rows, inputs[..|inputs| - 1]);
      match inputs[|inputs| - 1]
      case FromKernel(ev) => RowsAfterEvent(before, ev)
      case Denial(identity, category) => Recorded(before, RowKey(identity, category, PipeWire), 1, 0)
      case Allowance(identity, category) => Recorded(before, RowKey(identity, category, PipeWire), 0, 1)
  }

  function BlockedAfter(blocked: nat, inputs: seq<Input>): nat {
    if inputs == [] then blocked
    else
      var before := BlockedAfter(blocked, inputs[..|inputs| - 1]);
      match inputs[|inputs| - 1]
      case FromKernel(ev) => BlockedAfterEvent(before, ev)
      case Denial(_, _) => Add32(before, 1)
      case Allowance(_, _) => before
  }

  /** The denied opens an input stands for. */
  function Denials(input: Input): nat {
    match input
    case FromKernel(ev) => if CategoryOf(ev.role).None? || ev.released then 0 else DeniedOpens(ev)
    case Denial(_, _) => 1
    case Allowance(_, _) => 0
  }

  function TotalDenials(inputs: seq<Input>): nat {
    if inputs == [] then 0 else TotalDenials(inputs[..|inputs| - 1]) + Denials(inputs[|inputs| - 1])
  }

  /** The allowed opens an input records: an allowed microphone open is recorded only as part of a summary. */
  function Allowances(input: Input): nat {
    match input
    case FromKernel(ev) =>
      if CategoryOf(ev.role).None? || ev.released || (ev.pid != 0 && ev.role != CAMERA) then 0 else AllowedOpens(ev)
    case Denial(_, _) => 0
    case Allowance(_, _) => 1
  }

  function TotalAllowances(inputs: seq<Input>): nat {
    if inputs == [] then 0 else TotalAllowances(inputs[..|inputs| - 1]) + Allowances(inputs[|inputs| - 1])
  }

  /** The row an input goes to, if it goes to one. */
  function RowOf(input: Input): Option<RowKey> {
    match input
    case FromKernel(ev) =>
      (match CategoryOf(ev.role)
       case Some(category) => if ev.released then None else Some(RowKey(ev.exePath, category, Kernel))
       case None => None)
    case Denial(identity, category) => Some(RowKey(identity, category, PipeWire))
    case Allowance(identity, category) => Some(RowKey(identity, category, PipeWire))
  }

  /** An input is what it adds to its row. */
  lemma InputRecords(rows: map<RowKey, Row>, inputs: seq<Input>)
    requires inputs != []
    ensures var before, last := RowsAfter(rows, inputs[..|inputs| - 1]), inputs[|inputs| - 1];
            RowsAfter(rows, inputs) == match RowOf(last)
                                       case Some(key) => Recorded(before, key, Denials(last), Allowances(last))
                                       case None => before
  {
    hide Opens;
  }

  /** No input of the run would take the denied count of its row past the top. */
  ghost predicate DeniedFits(rows: map<RowKey, Row>, inputs: seq<Input>) {
    inputs == [] ||
    var before, last := RowsAfter(rows, inputs[..|inputs| - 1]), inputs[|inputs| - 1];
    && DeniedFits(rows, inputs[..|inputs| - 1])
    && (RowOf(last).Some? ==> RowAt(before, RowOf(last).value).denied + Denials(last) < WORD32)
  }

  ghost predicate AllowedFits(rows: map<RowKey, Row>, inputs: seq<Input>) {
    inputs == [] ||
    var before, last := RowsAfter(rows, inputs[..|inputs| - 1]), inputs[|inputs| - 1];
    && AllowedFits(rows, inputs[..|inputs| - 1])
    && (RowOf(last).Some? ==> RowAt(before, RowOf(last).value).allowed + Allowances(last) < WORD32)
  }

  lemma {:induction false} RowsStayWords(rows: map<RowKey, Row>, inputs: seq<Input>)
    requires Words(rows)
    ensures Words(RowsAfter(rows, inputs))
  {
    if inputs != [] {
      hide Opens, SatAdd, RowsAfter;
      RowsStayWords(rows, inputs[..|inputs| - 1]);
      InputRecords(rows, inputs);
    }
  }

  /**
   Over every run mixing kernel events, burst summaries, releases and PipeWire decisions the denied column grows by the
   denied opens and nothing else, if and only if no row saturates; otherwise it grows by less.
   */
  lemma {:induction false} DeniedColumnGrows(rows: map<RowKey, Row>, inputs: seq<Input>)
    requires Words(rows)
    ensures var before, after := Sum(DeniedColumn(rows)), Sum(DeniedColumn(RowsAfter(rows, inputs)));
            && before <= after <= before + TotalDenials(inputs)
            && (after == before + TotalDenials(inputs) <==> DeniedFits(rows, inputs))
  {
    hide Recorded, DeniedColumn, Opens, RowAt, Words, RowsAfter;
    if inputs == [] {
      NoInputs(rows);
    } else {
      var front, last := inputs[..|inputs| - 1], inputs[|inputs| - 1];
      DeniedColumnGrows(rows, front);
      InputRecords(rows, inputs);
      RowsStayWords(rows, front);
      if RowOf(last).Some? {
        RecordedDenied(RowsAfter(rows, front), RowOf(last).value, Denials(last), Allowances(last));
      }
    }
  }

  lemma NoInputs(rows: map<RowKey, Row>)
    ensures RowsAfter(rows, []) == rows
  {
  }

  /** Over every such run the allowed column grows by the allowed opens recorded, and by nothing denied. */
  lemma {:induction false} AllowedColumnGrows(rows: map<RowKey, Row>, inputs: seq<Input>)
    requires Words(rows)
    ensures var before, after := Sum(AllowedColumn(rows)), Sum(AllowedColumn(RowsAfter(rows, inputs)));
            && before <= after <= before + TotalAllowances(inputs)
            && (after == before + TotalAllowances(inputs) <==> AllowedFits(rows, inputs))
  {
    hide Recorded, AllowedColumn, Opens, RowAt, Words, RowsAfter;
    if inputs == [] {
      NoInputs(rows);
    } else {
      var front, last := inputs[..|inputs| - 1], inputs[|inputs| - 1];
      AllowedColumnGrows(rows, front);
      InputRecords(rows, inputs);
      RowsStayWords(rows, front);
      if RowOf(last).Some? {
        RecordedAllowed(RowsAfter(rows, front), RowOf(last).value, Denials(last), Allowances(last));
      }
    }
  }

  /** The counter grows by the denied opens, saturated rows or not, in 32-bit arithmetic. */
  lemma {:induction false} BlockedCountsDenials(blocked: nat, inputs: seq<Input>)
    requires blocked < WORD32
    ensures BlockedAfter(blocked, inputs) == Add32(blocked, TotalDenials(inputs))
  {
    hide Opens, Add32;
    if inputs == [] {
      AddNothing(blocked);
    } else {
      var front, last := inputs[..|inputs| - 1], inputs[|inputs| - 1];
      BlockedCountsDenials(blocked, front);
      AddTwice(blocked, TotalDenials(front), Denials(last));
      AddNothing(BlockedAfter(blocked, front));
    }
  }

  /**
   So the counter and the table agree: over every run in which no row saturates the blocked counter has grown, in 32-bit
   arithmetic, by exactly what the denied column has grown by.
   */
  lemma BlockedFollowsTheTable(blocked: nat, rows: map<RowKey, Row>, inputs: seq<Input>)
    requires blocked < WORD32 && Words(rows) && DeniedFits(rows, inputs)
    ensures Sum(DeniedColumn(RowsAfter(rows, inputs))) >= Sum(DeniedColumn(rows))
    ensures BlockedAfter(blocked, inputs)
         == Add32(blocked, Sum(DeniedColumn(RowsAfter(rows, inputs))) - Sum(DeniedColumn(rows)))
  {
    hide Add32, RowsAfter, BlockedAfter, DeniedFits;
    DeniedColumnGrows(rows, inputs);
    BlockedCountsDenials(blocked, inputs);
  }

  lemma AddTwice(x: nat, y: nat, z: nat)
    ensures Add32(Add32(x, y), z) == Add32(x, y + z)
  {
  }

  lemma AddNothing(x: nat)
    ensures x < WORD32 ==> Add32(x, 0) == x
  {
  }
}
