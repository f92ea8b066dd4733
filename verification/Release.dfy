/** The close hook taken apart into its single map operations, so that closes on different processors interleave. */
module Release {
  import opened Kernel

  type Cpu = nat

  /** The operation a close does next, after finding its handle. */
  datatype Phase =
    | Unlist(file: File)  // delete the handle
    | FindCount           // look the count up
    | Decrement           // take one off, through the pointer just looked up
    | ReRead              // look again
    | DeleteCount         // it was zero: delete the count
    | Report              // submit the release event

  datatype Closer = Closer(exe: ExeKey, phase: Phase)

  /**
   The two maps, the closes under way and the reports. `held` and `owed` are bookkeeping for the statements below: the
   tracked handles nobody has begun to close, and the executables that got a tracked handle since a report last found
   nothing pending.
   */
  datatype Snapshot = Snapshot(
    files: map<File, ExeKey>, counts: map<ExeKey, int>, closers: map<Cpu, Closer>, released: seq<ExeKey>,
    held: map<File, ExeKey>, owed: set<ExeKey>)
  {
    predicate Is(cpu: Cpu, exe: ExeKey, phase: Phase) {
      cpu in closers && closers[cpu] == Closer(exe, phase)
    }
  }

  const INITIAL := Snapshot(map[], map[], map[], [], map[], {})

  /** The whole open hook, the start of a close, or one operation of a close. */
  datatype Step = OpenFile(file: File, exe: ExeKey) | Begin(cpu: Cpu, closing: File) | Go(cpu: Cpu)

  predicate Enabled(s: Snapshot, step: Step) {
    match step
    case OpenFile(file, _) => file !in s.files && |s.files| < OPEN_FILES_MAX
    case Begin(cpu, file) => cpu !in s.closers && file in s.held
    case Go(cpu) => cpu in s.closers
  }

  /** The step is this operation of a close for this executable. */
  predicate Does(s: Snapshot, step: Step, exe: ExeKey, phase: Phase) {
    step.Go? && s.Is(step.cpu, exe, phase)
  }

  function FilesAfter(s: Snapshot, step: Step): map<File, ExeKey>
    requires Enabled(s, step)
  {
    match step
    case OpenFile(file, exe) => s.files[file := exe]
    case Begin(_, _) => s.files
    case Go(cpu) => if s.closers[cpu].phase.Unlist? then s.files - {s.closers[cpu].phase.file} else s.files
  }

  function CountsAfter(s: Snapshot, step: Step): map<ExeKey, int>
    requires Enabled(s, step)
  {
    match step
    case OpenFile(_, exe) => s.counts[exe := if exe in s.counts then s.counts[exe] + 1 else 1]
    case Begin(_, _) => s.counts
    case Go(cpu) =>
      var exe := s.closers[cpu].exe;
      // An element deleted since it was looked up is no longer in the map.
      if s.closers[cpu].phase.Decrement? && exe in s.counts then s.counts[exe := s.counts[exe] - 1]
      else if s.closers[cpu].phase.DeleteCount? then s.counts - {exe}
      else s.counts
  }

  function Later(p: Phase): Phase {
    match p
    case Unlist(_) => FindCount
    case FindCount => Decrement
    case Decrement => ReRead
    case ReRead => DeleteCount
    case DeleteCount => Report
    case Report => Report
  }

  /** A close is over when it finds no count, when the count is not zero, and when it has reported. */
  predicate Finishes(s: Snapshot, cpu: Cpu)
    requires cpu in s.closers
  {
    var exe, phase := s.closers[cpu].exe, s.closers[cpu].phase;
    || (phase.FindCount? && exe !in s.counts)
    || (phase.ReRead? && !(exe in s.counts && s.counts[exe] == 0))
    || phase.Report?
  }

  function ClosersAfter(s: Snapshot, step: Step): map<Cpu, Closer>
    requires Enabled(s, step)
  {
    match step
    case OpenFile(_, _) => s.closers
    case Begin(cpu, file) => s.closers[cpu := Closer(s.held[file], Unlist(file))]
    case Go(cpu) =>
      if Finishes(s, cpu) then s.closers - {cpu}
      else s.closers[cpu := Closer(s.closers[cpu].exe, Later(s.closers[cpu].phase))]
  }

  function ReleasedAfter(s: Snapshot, step: Step): seq<ExeKey>
    requires Enabled(s, step)
  {
    if step.Go? && s.closers[step.cpu].phase.Report? then s.released + [s.closers[step.cpu].exe] else s.released
  }

  function HeldAfter(s: Snapshot, step: Step): map<File, ExeKey>
    requires Enabled(s, step)
  {
    match step
    case OpenFile(file, exe) => s.held[file := exe]
    case Begin(_, file) => s.held - {file}
    case Go(_) => s.held
  }

  predicate NotYetCounted(p: Phase) {
    p.Unlist? || p.FindCount? || p.Decrement?
  }

  /** Closes of an executable that have not yet decremented its count. */
  function Draining(closers: map<Cpu, Closer>, exe: ExeKey): set<Cpu> {
    set c | c in closers && closers[c].exe == exe && NotYetCounted(closers[c].phase)
  }

  function Pending(s: Snapshot, exe: ExeKey): nat {
    |HeldBy(s.held, exe)| + |Draining(s.closers, exe)|
  }

  function OwedAfter(s: Snapshot, step: Step): set<ExeKey>
    requires Enabled(s, step)
  {
    match step
    case OpenFile(_, exe) => s.owed + {exe}
    case Begin(_, _) => s.owed
    case Go(cpu) =>
      var exe := s.closers[cpu].exe;
      // A report while something is pending is early: the release is still owed.
      if s.closers[cpu].phase.Report? && Pending(s, exe) == 0 then s.owed - {exe} else s.owed
  }

  function Next(s: Snapshot, step: Step): Snapshot
    requires Enabled(s, step)
  {
    Snapshot(FilesAfter(s, step), CountsAfter(s, step), ClosersAfter(s, step), ReleasedAfter(s, step),
             HeldAfter(s, step), OwedAfter(s, step))
  }

  // ---------------------------------------------------------------------------
  // The invariant
  // ---------------------------------------------------------------------------

  /** A close has observed zero and is about to delete the count. */
  ghost predicate Deleting(s: Snapshot, exe: ExeKey) {
    exists c :: s.Is(c, exe, DeleteCount)
  }

  /** A close has deleted the count and is about to report. */
  ghost predicate Reporting(s: Snapshot, exe: ExeKey) {
    exists c :: s.Is(c, exe, Report)
  }

  /** A close that will report: past the count, or still to look at one that is there. */
  predicate Bound(s: Snapshot, cpu: Cpu, exe: ExeKey) {
    s.Is(cpu, exe, Report) || (exe in s.counts && (s.Is(cpu, exe, ReRead) || s.Is(cpu, exe, DeleteCount)))
  }

  ghost predicate WillReport(s: Snapshot, exe: ExeKey) {
    exists c :: Bound(s, c, exe)
  }

  /** The count is right, no close deletes a count that is needed, and a release that is owed will be reported. */
  ghost predicate SoundFor(s: Snapshot, exe: ExeKey) {
    && (exe in s.counts ==> s.counts[exe] == Pending(s, exe))
    && (Pending(s, exe) > 0 ==> exe in s.counts)
    && (Deleting(s, exe) ==> Pending(s, exe) == 0)
    && (exe in s.owed && Pending(s, exe) == 0 ==> WillReport(s, exe))
  }

  ghost predicate HeldAreListed(s: Snapshot) {
    forall f | f in s.held :: f in s.files && s.files[f] == s.held[f]
  }

  /** Each close about to unlist a handle has its own, listed under its executable and held by nobody. */
  ghost predicate ClaimsAreListed(s: Snapshot) {
    && (forall c, f | c in s.closers && s.closers[c].phase == Unlist(f) ::
          f in s.files && s.files[f] == s.closers[c].exe && f !in s.held)
    && (forall c, d | c in s.closers && d in s.closers && s.closers[c].phase.Unlist? && c != d ::
          s.closers[c].phase != s.closers[d].phase)
  }

  /** A tracked handle is held, or one close is about to unlist it. */
  ghost predicate Listed(s: Snapshot) {
    && HeldAreListed(s) && ClaimsAreListed(s)
    && (forall f | f in s.files && f !in s.held :: exists c :: s.Is(c, s.files[f], Unlist(f)))
  }

  ghost predicate Sound(s: Snapshot) {
    Listed(s) && forall exe :: SoundFor(s, exe)
  }

  /** Sound, and no close is about to report while a handle is held. */
  ghost predicate Good(s: Snapshot) {
    Sound(s) && forall exe | Reporting(s, exe) :: Pending(s, exe) == 0
  }

  /** No open of an executable while one of its closes is between observing zero and deleting the count. */
  ghost predicate Spared(s: Snapshot, step: Step) {
    step.OpenFile? ==> !Deleting(s, step.exe)
  }

  /** ... nor between deleting the count and reporting. */
  ghost predicate Apart(s: Snapshot, step: Step) {
    step.OpenFile? ==> !Deleting(s, step.exe) && !Reporting(s, step.exe)
  }

  lemma StepKeepsHeldListed(s: Snapshot, step: Step)
    requires Enabled(s, step) && Listed(s)
    ensures HeldAreListed(Next(s, step))
  {
    hide CountsAfter, ClosersAfter, ReleasedAfter, OwedAfter;
  }

  /** A close about to unlist was so before, or has just begun. */
  lemma ClaimsBegin(s: Snapshot, step: Step, cpu: Cpu)
    requires Enabled(s, step) && cpu in ClosersAfter(s, step) && ClosersAfter(s, step)[cpu].phase.Unlist?
    ensures || (cpu in s.closers && s.closers[cpu] == ClosersAfter(s, step)[cpu] && step != Go(cpu))
            || (step.Begin? && step.cpu == cpu
                && ClosersAfter(s, step)[cpu] == Closer(s.held[step.closing], Unlist(step.closing)))
  {
  }

  lemma StepKeepsClaims(s: Snapshot, step: Step)
    requires Enabled(s, step) && Listed(s)
    ensures ClaimsAreListed(Next(s, step))
  {
    hide ClosersAfter, CountsAfter, ReleasedAfter, OwedAfter;
    var n := Next(s, step);
    forall c | c in n.closers && n.closers[c].phase.Unlist?
      ensures n.closers[c].phase.file in n.files && n.files[n.closers[c].phase.file] == n.closers[c].exe
              && n.closers[c].phase.file !in n.held
    {
      ClaimsBegin(s, step, c);
    }
    forall c, d | c in n.closers && d in n.closers && n.closers[c].phase.Unlist? && c != d
      ensures n.closers[c].phase != n.closers[d].phase
    {
      ClaimsBegin(s, step, c);
      if n.closers[d].phase.Unlist? {
        ClaimsBegin(s, step, d);
      }
    }
  }

  lemma StepKeepsListed(s: Snapshot, step: Step)
    requires Enabled(s, step) && Listed(s)
    ensures Listed(Next(s, step))
  {
    hide Finishes, CountsAfter, ReleasedAfter, OwedAfter, HeldAreListed, ClaimsAreListed;
    StepKeepsHeldListed(s, step);
    StepKeepsClaims(s, step);
    var n := Next(s, step);
    forall f | f in n.files && f !in n.held ensures exists c :: n.Is(c, n.files[f], Unlist(f)) {
      if f in s.files && f !in s.held {
        var c :| s.Is(c, s.files[f], Unlist(f));
        UnlistStays(s, step, c, f);
        assert n.Is(c, n.files[f], Unlist(f));
      } else {
        assert step.Begin? && HeldAreListed(s);
        BeginClaims(s, step);
      }
    }
  }

  lemma BeginClaims(s: Snapshot, step: Step)
    requires Enabled(s, step) && step.Begin? && Listed(s)
    ensures Next(s, step).Is(step.cpu, Next(s, step).files[step.closing], Unlist(step.closing))
  {
  }

  lemma UnlistStays(s: Snapshot, step: Step, cpu: Cpu, file: File)
    requires Enabled(s, step) && cpu in s.closers && s.closers[cpu].phase == Unlist(file) && file in FilesAfter(s, step)
    ensures cpu in ClosersAfter(s, step) && ClosersAfter(s, step)[cpu] == s.closers[cpu]
  {
  }

  // ---------------------------------------------------------------------------
  // What one step does to one executable
  // ---------------------------------------------------------------------------

  lemma Remove(a: set<Cpu>, c: Cpu)
    ensures |a| == |a - {c}| + if c in a then 1 else 0
  {
    if c in a {
      assert a == (a - {c}) + {c};
    } else {
      assert a == a - {c};
    }
  }

  lemma DrainingMoves(closers: map<Cpu, Closer>, cpu: Cpu, c: Closer, exe: ExeKey)
    ensures var mine := c.exe == exe && NotYetCounted(c.phase);
            var was := cpu in closers && closers[cpu].exe == exe && NotYetCounted(closers[cpu].phase);
            |Draining(closers[cpu := c], exe)|
            == |Draining(closers, exe)| + (if mine then 1 else 0) - (if was then 1 else 0)
  {
    var before, after := Draining(closers, exe), Draining(closers[cpu := c], exe);
    assert after - {cpu} == before - {cpu};
    Remove(before, cpu);
    Remove(after, cpu);
  }

  lemma DrainingEnds(closers: map<Cpu, Closer>, cpu: Cpu, exe: ExeKey)
    requires cpu in closers && (closers[cpu].exe == exe ==> !NotYetCounted(closers[cpu].phase))
    ensures Draining(closers - {cpu}, exe) == Draining(closers, exe)
  {
  }

  /** A close that has not decremented yet keeps its executable pending, so its count is there. */
  lemma Draws(s: Snapshot, cpu: Cpu)
    requires cpu in s.closers && NotYetCounted(s.closers[cpu].phase)
    ensures Pending(s, s.closers[cpu].exe) > 0
  {
    assert cpu in Draining(s.closers, s.closers[cpu].exe);
  }

  lemma GoingMovesDraining(s: Snapshot, cpu: Cpu, exe: ExeKey)
    requires cpu in s.closers && (Pending(s, s.closers[cpu].exe) > 0 ==> s.closers[cpu].exe in s.counts)
    ensures |Draining(ClosersAfter(s, Go(cpu)), exe)|
         == |Draining(s.closers, exe)| - if s.Is(cpu, exe, Decrement) then 1 else 0
  {
    hide Draining, Pending;
    var closer := s.closers[cpu];
    if closer.phase.FindCount? {
      Draws(s, cpu);
    }
    if Finishes(s, cpu) {
      DrainingEnds(s.closers, cpu, exe);
    } else {
      DrainingMoves(s.closers, cpu, Closer(closer.exe, Later(closer.phase)), exe);
    }
  }

  lemma OpeningMovesHeld(s: Snapshot, step: Step, exe: ExeKey)
    requires Enabled(s, step) && Listed(s) && step.OpenFile?
    ensures |HeldBy(HeldAfter(s, step), exe)| == |HeldBy(s.held, exe)| + if step.exe == exe then 1 else 0
  {
    hide HeldBy;
    HeldAfterTrack(s.held, step.file, step.exe, exe);
    NotHeld(s.held, step.file, exe);
  }

  lemma BeginningMovesPending(s: Snapshot, step: Step, exe: ExeKey)
    requires Enabled(s, step) && step.Begin?
    ensures Pending(Next(s, step), exe) == Pending(s, exe)
  {
    hide HeldBy, Draining;
    var file := step.closing;
    HeldAfterDrop(s.held, file, exe);
    HoldsItsOwn(s.held, file);
    Remove(HeldBy(s.held, exe), file);
    if s.held[file] != exe {
      OthersKeepTheirs(s.held, file, exe);
    }
    DrainingMoves(s.closers, step.cpu, Closer(s.held[file], Unlist(file)), exe);
  }

  /**
   How what is pending changes: an open adds a handle, a decrement takes it off, every other step only passes it on.
   */
  lemma StepMovesPending(s: Snapshot, step: Step, exe: ExeKey)
    requires Enabled(s, step) && Sound(s)
    ensures Pending(Next(s, step), exe) == Pending(s, exe)
              + (if step.OpenFile? && step.exe == exe then 1 else 0) - (if Does(s, step, exe, Decrement) then 1 else 0)
  {
    hide HeldBy, Draining, Listed, Deleting, WillReport;
    match step {
      case OpenFile(_, _) => OpeningMovesHeld(s, step, exe);
      case Begin(_, _) => BeginningMovesPending(s, step, exe);
      case Go(cpu) =>
        assert SoundFor(s, s.closers[cpu].exe);
        GoingMovesDraining(s, cpu, exe);
    }
  }

  lemma StepCounts(s: Snapshot, step: Step, exe: ExeKey)
    requires Enabled(s, step)
    ensures var n := CountsAfter(s, step);
            && (exe in n
                <==> (exe in s.counts && !Does(s, step, exe, DeleteCount)) || (step.OpenFile? && step.exe == exe))
            && (exe in n ==> n[exe] == (if exe in s.counts then s.counts[exe] else 0)
                                       + (if step.OpenFile? && step.exe == exe then 1 else 0)
                                       - (if Does(s, step, exe, Decrement) then 1 else 0))
  {
  }

  lemma StepOwes(s: Snapshot, step: Step, exe: ExeKey)
    requires Enabled(s, step)
    ensures exe in OwedAfter(s, step)
       <==> || (exe in s.owed && !(Does(s, step, exe, Report) && Pending(s, exe) == 0))
            || (step.OpenFile? && step.exe == exe)
  {
    hide Pending;
  }

  /** Only a re-read that finds zero leads to a deletion, and only a deletion to a report. */
  lemma EndingBegins(s: Snapshot, step: Step, cpu: Cpu, exe: ExeKey)
    requires Enabled(s, step)
    ensures Next(s, step).Is(cpu, exe, DeleteCount) ==>
              s.Is(cpu, exe, DeleteCount)
              || (step == Go(cpu) && s.Is(cpu, exe, ReRead) && exe in s.counts && s.counts[exe] == 0)
    ensures Next(s, step).Is(cpu, exe, Report) ==>
              s.Is(cpu, exe, Report) || (step == Go(cpu) && s.Is(cpu, exe, DeleteCount))
  {
    hide FilesAfter, CountsAfter, ReleasedAfter, HeldAfter, OwedAfter;
  }

  /** A close bound to report stays bound, or hands over to one that took the count away, until it has reported. */
  lemma BoundStays(s: Snapshot, step: Step, cpu: Cpu, exe: ExeKey)
    requires Enabled(s, step) && Bound(s, cpu, exe) && (exe in s.counts ==> s.counts[exe] == 0)
    requires (step.OpenFile? ==> step.exe != exe) && !Does(s, step, exe, Decrement)
    ensures || (step == Go(cpu) && Does(s, step, exe, Report))
            || (step.Go? && Bound(Next(s, step), step.cpu, exe))
            || Bound(Next(s, step), cpu, exe)
  {
    hide FilesAfter, CountsAfter, ReleasedAfter, HeldAfter, OwedAfter;
    StepCounts(s, step, exe);
  }

  lemma StepKeepsWillReport(s: Snapshot, step: Step, exe: ExeKey)
    requires Enabled(s, step) && WillReport(s, exe) && (exe in s.counts ==> s.counts[exe] == 0)
    requires (step.OpenFile? ==> step.exe != exe) && !Does(s, step, exe, Decrement)
    ensures WillReport(Next(s, step), exe) || Does(s, step, exe, Report)
  {
    hide Bound, Next, Enabled;
    var cpu :| Bound(s, cpu, exe);
    BoundStays(s, step, cpu, exe);
  }

  lemma DecrementBinds(s: Snapshot, step: Step, exe: ExeKey)
    requires Enabled(s, step) && Does(s, step, exe, Decrement) && exe in s.counts
    ensures WillReport(Next(s, step), exe)
  {
    assert Bound(Next(s, step), step.cpu, exe);
  }

  lemma StepKeepsSoundFor(s: Snapshot, step: Step, exe: ExeKey)
    requires Enabled(s, step) && Sound(s) && Spared(s, step)
    ensures SoundFor(Next(s, step), exe)
  {
    hide Pending, Listed, WillReport, FilesAfter, ClosersAfter, CountsAfter, ReleasedAfter, HeldAfter, OwedAfter;
    var n := Next(s, step);
    assert SoundFor(s, exe);
    StepMovesPending(s, step, exe);
    StepCounts(s, step, exe);
    StepOwes(s, step, exe);
    if Does(s, step, exe, Decrement) {
      Draws(s, step.cpu);
    }
    if Does(s, step, exe, DeleteCount) {
      assert s.Is(step.cpu, exe, DeleteCount);
    }
    if c :| n.Is(c, exe, DeleteCount) {
      EndingBegins(s, step, c, exe);
    }
    if exe in n.owed && Pending(n, exe) == 0 {
      if Does(s, step, exe, Decrement) {
        DecrementBinds(s, step, exe);
      } else {
        StepKeepsWillReport(s, step, exe);
      }
    }
  }

  lemma StepKeepsSound(s: Snapshot, step: Step)
    requires Enabled(s, step) && Sound(s) && Spared(s, step)
    ensures Sound(Next(s, step))
  {
    hide SoundFor, Listed, Next;
    StepKeepsListed(s, step);
    forall exe ensures SoundFor(Next(s, step), exe) {
      StepKeepsSoundFor(s, step, exe);
    }
  }

  lemma StepKeepsGood(s: Snapshot, step: Step)
    requires Enabled(s, step) && Good(s) && Apart(s, step)
    ensures Good(Next(s, step))
  {
    hide SoundFor, Listed, Next, Pending;
    StepKeepsSound(s, step);
    forall exe | Reporting(Next(s, step), exe) ensures Pending(Next(s, step), exe) == 0 {
      var c :| Next(s, step).Is(c, exe, Report);
      EndingBegins(s, step, c, exe);
      StepMovesPending(s, step, exe);
      if s.Is(c, exe, DeleteCount) {
        DeletingFindsNothing(s, exe);
      }
    }
  }

  lemma DeletingFindsNothing(s: Snapshot, exe: ExeKey)
    requires Sound(s) && Deleting(s, exe)
    ensures Pending(s, exe) == 0
  {
    hide Pending, WillReport, Listed;
    assert SoundFor(s, exe);
  }

  /** An open changes no close, and leaves its executable with something pending. */
  lemma OpenLeavesCloses(s: Snapshot, step: Step)
    requires Enabled(s, step) && Sound(s) && step.OpenFile?
    ensures Next(s, step).closers == s.closers && Pending(Next(s, step), step.exe) > 0
  {
    hide Pending;
    StepMovesPending(s, step, step.exe);
  }

  /**
   The premise of soundness is exact: one step of an interleaving keeps the counts and the owed releases right if and
   only if it is not an open that lands while a close of the same executable is about to delete the count.
   */
  lemma SoundIffSpared(s: Snapshot, step: Step)
    requires Enabled(s, step) && Sound(s)
    ensures Sound(Next(s, step)) <==> Spared(s, step)
  {
    hide Pending, WillReport, Listed, Next, Enabled;
    if Spared(s, step) {
      StepKeepsSound(s, step);
    } else {
      OpenLeavesCloses(s, step);
      var c :| s.Is(c, step.exe, DeleteCount);
      assert Next(s, step).Is(c, step.exe, DeleteCount);
      assert !SoundFor(Next(s, step), step.exe);
    }
  }

  /** And so is the premise of never reporting early: no open until the close has reported. */
  lemma GoodIffApart(s: Snapshot, step: Step)
    requires Enabled(s, step) && Good(s)
    ensures Good(Next(s, step)) <==> Apart(s, step)
  {
    hide Pending, SoundFor, Listed, Next, Enabled;
    if Apart(s, step) {
      StepKeepsGood(s, step);
    } else {
      OpenLeavesCloses(s, step);
      SoundIffSpared(s, step);
      if c :| s.Is(c, step.exe, Report) {
        assert Next(s, step).Is(c, step.exe, Report);
      }
    }
  }

  // ---------------------------------------------------------------------------
  // Runs
  // ---------------------------------------------------------------------------

  /** A run: every step is enabled, and no open falls between another close's zero and its deletion of the count. */
  ghost predicate IsRun(states: seq<Snapshot>, steps: seq<Step>) {
    && |states| == |steps| + 1 && states[0] == INITIAL
    && forall i | 0 <= i < |steps| ::
         Enabled(states[i], steps[i]) && Spared(states[i], steps[i]) && states[i + 1] == Next(states[i], steps[i])
  }

  /** And none between the deletion and the report. */
  ghost predicate KeepsApart(states: seq<Snapshot>, steps: seq<Step>) {
    forall i | 0 <= i < |steps| && i < |states| :: Apart(states[i], steps[i])
  }

  lemma InitialIsGood()
    ensures Good(INITIAL)
  {
    forall exe ensures SoundFor(INITIAL, exe) {
      assert HeldBy(INITIAL.held, exe) == {} && Draining(INITIAL.closers, exe) == {};
    }
  }

  lemma {:induction false} RunIsSound(states: seq<Snapshot>, steps: seq<Step>, i: nat)
    requires IsRun(states, steps) && i < |states|
    ensures Sound(states[i])
  {
    hide Next, Enabled, Spared, Sound;
    if i == 0 {
      InitialIsGood();
      assert Sound(INITIAL) by { GoodIsSound(INITIAL); }
    } else {
      RunIsSound(states, steps, i - 1);
      StepKeepsSound(states[i - 1], steps[i - 1]);
    }
  }

  lemma GoodIsSound(s: Snapshot)
    requires Good(s)
    ensures Sound(s)
  {
  }

  lemma {:induction false} RunIsGood(states: seq<Snapshot>, steps: seq<Step>, i: nat)
    requires IsRun(states, steps) && KeepsApart(states, steps) && i < |states|
    ensures Good(states[i])
  {
    hide Next, Enabled, Apart, Good;
    if i == 0 {
      InitialIsGood();
    } else {
      RunIsGood(states, steps, i - 1);
      StepKeepsGood(states[i - 1], steps[i - 1]);
    }
  }

  /** At any moment of any interleaving the count is what is held plus the closes that have not decremented it yet. */
  lemma CountIsPending(states: seq<Snapshot>, steps: seq<Step>, i: nat, exe: ExeKey)
    requires IsRun(states, steps) && i < |states|
    ensures exe in states[i].counts ==>
              states[i].counts[exe] == |HeldBy(states[i].held, exe)| + |Draining(states[i].closers, exe)|
    ensures HeldBy(states[i].held, exe) != {} ==> exe in states[i].counts
  {
    hide IsRun, Listed, Draining, HeldBy, WillReport, Deleting;
    RunIsSound(states, steps, i);
    assert SoundFor(states[i], exe);
  }

  /** No close of this executable is under way. */
  predicate AtRest(s: Snapshot, exe: ExeKey) {
    forall c | c in s.closers :: s.closers[c].exe != exe
  }

  /** Then its tracked handles are all held. */
  lemma AtRestAllHeld(s: Snapshot, exe: ExeKey)
    requires Listed(s) && AtRest(s, exe)
    ensures HeldBy(s.files, exe) == HeldBy(s.held, exe) && Draining(s.closers, exe) == {}
  {
  }

  /** With no close of an executable under way, its count is the number of its tracked handles. */
  lemma CountIsExactAtRest(states: seq<Snapshot>, steps: seq<Step>, i: nat, exe: ExeKey)
    requires IsRun(states, steps) && i < |states| && AtRest(states[i], exe)
    ensures exe in states[i].counts ==> states[i].counts[exe] == |HeldBy(states[i].files, exe)|
    ensures HeldBy(states[i].files, exe) != {} ==> exe in states[i].counts
  {
    hide IsRun, AtRest, HeldBy, Draining, Listed, SoundFor;
    RunIsSound(states, steps, i);
    CountIsPending(states, steps, i, exe);
    AtRestAllHeld(states[i], exe);
  }

  /** Step `i` of a run reports the release of an executable. */
  predicate Reports(states: seq<Snapshot>, steps: seq<Step>, i: nat, exe: ExeKey) {
    i < |steps| && i < |states| && Does(states[i], steps[i], exe, Report)
  }

  /** No release event while a tracked handle of the executable is still held. */
  lemma NoReleaseWhileHeld(states: seq<Snapshot>, steps: seq<Step>, i: nat, exe: ExeKey)
    requires IsRun(states, steps) && KeepsApart(states, steps) && Reports(states, steps, i, exe)
    ensures HeldBy(states[i].held, exe) == {}
  {
    hide IsRun, KeepsApart, Listed, Draining, HeldBy, WillReport;
    RunIsGood(states, steps, i);
    assert states[i].Is(steps[i].cpu, exe, Report);
    assert Reporting(states[i], exe);
  }

  lemma StepOf(states: seq<Snapshot>, steps: seq<Step>, i: nat)
    requires IsRun(states, steps) && i < |steps|
    ensures |states| == |steps| + 1
    ensures Enabled(states[i], steps[i]) && states[i + 1].owed == OwedAfter(states[i], steps[i])
  {
    hide Enabled, OwedAfter;
  }

  /**
   Between an open and a moment with no close of its executable under way and no handle of it left, a release event was
   reported, and reported when no handle was held any more.
   */
  lemma ReleaseIsNeverMissed(states: seq<Snapshot>, steps: seq<Step>, start: nat, end: nat)
    requires IsRun(states, steps) && start < end < |states| && steps[start].OpenFile?
    requires AtRest(states[end], steps[start].exe) && HeldBy(states[end].held, steps[start].exe) == {}
    ensures exists i | start < i < end ::
              Reports(states, steps, i, steps[start].exe) && HeldBy(states[i].held, steps[start].exe) == {}
  {
    hide Enabled, Next, Spared, Listed, HeldBy, Deleting, OwedAfter, Does;
    var exe := steps[start].exe;
    RunIsSound(states, steps, end);
    assert SoundFor(states[end], exe);
    assert Draining(states[end].closers, exe) == {};
    assert exe !in states[end].owed;
    StepOf(states, steps, start);
    StepOwes(states[start], steps[start], exe);
    var i := start + 1;
    while exe in states[i].owed
      invariant start < i <= end
      invariant exe in states[i].owed
                || (start < i - 1 && Reports(states, steps, i - 1, exe) && HeldBy(states[i - 1].held, exe) == {})
      decreases end - i
    {
      StepOf(states, steps, i);
      StepOwes(states[i], steps[i], exe);
      i := i + 1;
    }
  }

  // ---------------------------------------------------------------------------
  // A close by itself
  // ---------------------------------------------------------------------------

  function Remaining(closers: map<Cpu, Closer>, cpu: Cpu): nat {
    if cpu !in closers then 0
    else
      match closers[cpu].phase
      case Unlist(_) => 6
      case FindCount => 5
      case Decrement => 4
      case ReRead => 3
      case DeleteCount => 2
      case Report => 1
  }

  lemma OthersStay(closers: map<Cpu, Closer>, cpu: Cpu, c: Closer)
    ensures closers[cpu := c] - {cpu} == closers - {cpu} == (closers - {cpu}) - {cpu}
  {
  }

  /** A close under way can always go on, is over after at most six operations, and disturbs no other. */
  lemma CloseAlwaysEnds(s: Snapshot, cpu: Cpu)
    requires cpu in s.closers
    ensures Enabled(s, Go(cpu)) && ClosersAfter(s, Go(cpu)) - {cpu} == s.closers - {cpu}
    ensures Remaining(ClosersAfter(s, Go(cpu)), cpu) < Remaining(s.closers, cpu)
  {
    OthersStay(s.closers, cpu, Closer(s.closers[cpu].exe, Later(s.closers[cpu].phase)));
  }

  function RunAlone(s: Snapshot, cpu: Cpu): Snapshot
    decreases Remaining(s.closers, cpu)
  {
    if cpu !in s.closers then s
    else
      CloseAlwaysEnds(s, cpu);
      RunAlone(Next(s, Go(cpu)), cpu)
  }

  lemma AloneStep(s: Snapshot, cpu: Cpu)
    requires cpu in s.closers
    ensures RunAlone(s, cpu) == RunAlone(Next(s, Go(cpu)), cpu)
  {
  }

  /** What one operation of a close for `exe` at a phase leaves. */
  lemma Goes(s: Snapshot, cpu: Cpu, exe: ExeKey, phase: Phase)
    requires s.Is(cpu, exe, phase)
    ensures RunAlone(s, cpu) == RunAlone(Next(s, Go(cpu)), cpu)
    ensures ClosersAfter(s, Go(cpu)) - {cpu} == s.closers - {cpu}
    ensures if Finishes(s, cpu) then cpu !in ClosersAfter(s, Go(cpu)) else Next(s, Go(cpu)).Is(cpu, exe, Later(phase))
  {
    hide Remaining, FilesAfter, CountsAfter, ReleasedAfter, HeldAfter, OwedAfter, Finishes, Later;
    CloseAlwaysEnds(s, cpu);
    AloneStep(s, cpu);
  }

  /** An operation leaves everything but the counts, the reports and the handle to unlist as it was. */
  lemma GoLeaves(s: Snapshot, cpu: Cpu, exe: ExeKey, phase: Phase)
    requires s.Is(cpu, exe, phase)
    ensures var n := Next(s, Go(cpu));
            && (!phase.Unlist? ==> n.files == s.files)
            && (!phase.Decrement? && !phase.DeleteCount? ==> n.counts == s.counts)
            && n.released == (if phase.Report? then s.released + [exe] else s.released)
            && n.held == s.held && n.closers - {cpu} == s.closers - {cpu}
            && (phase.DeleteCount? ==> n.counts == s.counts - {exe})
            && (phase.Decrement? && exe in s.counts ==> n.counts == s.counts[exe := s.counts[exe] - 1])
  {
    hide ClosersAfter, OwedAfter;
    CloseAlwaysEnds(s, cpu);
  }

  /** Past a zero the count is deleted, then the release is reported and the close is over. */
  lemma Deletes(s: Snapshot, cpu: Cpu, exe: ExeKey)
    requires s.Is(cpu, exe, DeleteCount)
    ensures var n := Next(s, Go(cpu));
            && n.Is(cpu, exe, Report) && n.files == s.files && n.counts == s.counts - {exe}
            && n.released == s.released && n.held == s.held && n.closers - {cpu} == s.closers - {cpu}
  {
    hide Next;
    GoLeaves(s, cpu, exe, DeleteCount);
    Goes(s, cpu, exe, DeleteCount);
  }

  lemma ReportsAndEnds(s: Snapshot, cpu: Cpu, exe: ExeKey)
    requires s.Is(cpu, exe, Report)
    ensures var n := Next(s, Go(cpu));
            && n.files == s.files && n.counts == s.counts && n.closers == s.closers - {cpu}
            && n.released == s.released + [exe] && n.held == s.held
  {
    hide RunAlone, OwedAfter;
    GoLeaves(s, cpu, exe, Report);
  }

  /** From the decremented count on: the last handle reports and forgets the count. */
  lemma AloneFromCount(s: Snapshot, cpu: Cpu, exe: ExeKey)
    requires s.Is(cpu, exe, ReRead) && exe in s.counts
    ensures var end, last := RunAlone(s, cpu), s.counts[exe] == 0;
            && end.files == s.files && end.closers == s.closers - {cpu} && end.held == s.held
            && end.counts == (if last then s.counts - {exe} else s.counts)
            && end.released == (if last then s.released + [exe] else s.released)
  {
    hide RunAlone, Next, ClosersAfter;
    GoLeaves(s, cpu, exe, ReRead);
    Goes(s, cpu, exe, ReRead);
    var s1 := Next(s, Go(cpu));
    if s.counts[exe] == 0 {
      Goes(s1, cpu, exe, DeleteCount);
      Deletes(s1, cpu, exe);
      var s2 := Next(s1, Go(cpu));
      Goes(s2, cpu, exe, Report);
      ReportsAndEnds(s2, cpu, exe);
      Finished(Next(s2, Go(cpu)), cpu);
    } else {
      EndsHere(s, cpu);
      Finished(s1, cpu);
    }
  }

  /** A close that finishes is gone and the others stay. */
  lemma EndsHere(s: Snapshot, cpu: Cpu)
    requires cpu in s.closers && Finishes(s, cpu)
    ensures Next(s, Go(cpu)).closers == s.closers - {cpu}
  {
    hide FilesAfter, CountsAfter, OwedAfter, Finishes;
  }

  /** From the count looked up on: it goes down by one, or away. */
  lemma AloneFromDecrement(s: Snapshot, cpu: Cpu, exe: ExeKey)
    requires s.Is(cpu, exe, Decrement) && exe in s.counts
    ensures var end, last := RunAlone(s, cpu), s.counts[exe] == 1;
            && end.files == s.files && end.closers == s.closers - {cpu} && end.held == s.held
            && end.counts == (if last then s.counts - {exe} else s.counts[exe := s.counts[exe] - 1])
            && end.released == (if last then s.released + [exe] else s.released)
  {
    hide RunAlone, Next, ClosersAfter, Finishes;
    GoLeaves(s, cpu, exe, Decrement);
    Goes(s, cpu, exe, Decrement);
    NeverEndsAt(s, cpu, exe, Decrement);
    AloneFromCount(Next(s, Go(cpu)), cpu, exe);
    assert s.counts[exe := s.counts[exe] - 1] - {exe} == s.counts - {exe};
  }

  lemma NeverEndsAt(s: Snapshot, cpu: Cpu, exe: ExeKey, phase: Phase)
    requires s.Is(cpu, exe, phase) && (phase.Unlist? || phase.Decrement? || phase.DeleteCount?)
    ensures !Finishes(s, cpu)
  {
  }

  /** From the unlisted handle on. */
  lemma AloneFromUnlisted(s: Snapshot, cpu: Cpu, exe: ExeKey)
    requires s.Is(cpu, exe, FindCount)
    ensures var end, last := RunAlone(s, cpu), exe in s.counts && s.counts[exe] == 1;
            && end.files == s.files && end.closers == s.closers - {cpu} && end.held == s.held
            && end.counts == (if last then s.counts - {exe}
                              else if exe in s.counts then s.counts[exe := s.counts[exe] - 1] else s.counts)
            && end.released == (if last then s.released + [exe] else s.released)
  {
    hide RunAlone, Next, ClosersAfter;
    GoLeaves(s, cpu, exe, FindCount);
    Goes(s, cpu, exe, FindCount);
    if exe in s.counts {
      AloneFromDecrement(Next(s, Go(cpu)), cpu, exe);
    } else {
      EndsHere(s, cpu);
      Finished(Next(s, Go(cpu)), cpu);
    }
  }

  /** A close that nothing interleaves with, from its first operation to its last. */
  lemma AloneEnds(s: Snapshot, cpu: Cpu, file: File)
    requires cpu !in s.closers && file in s.held
    ensures var end, exe := RunAlone(Next(s, Begin(cpu, file)), cpu), s.held[file];
            var last := exe in s.counts && s.counts[exe] == 1;
            && end.files == s.files - {file} && end.closers == s.closers && end.held == s.held - {file}
            && end.counts == (if last then s.counts - {exe}
                              else if exe in s.counts then s.counts[exe := s.counts[exe] - 1] else s.counts)
            && end.released == (if last then s.released + [exe] else s.released)
  {
    hide RunAlone, Next;
    Unlists(s, cpu, file);
    AloneFromUnlisted(Next(Next(s, Begin(cpu, file)), Go(cpu)), cpu, s.held[file]);
  }

  lemma Begins(s: Snapshot, cpu: Cpu, file: File)
    requires cpu !in s.closers && file in s.held
    ensures Next(s, Begin(cpu, file))
         == s.(held := s.held - {file}, closers := s.closers[cpu := Closer(s.held[file], Unlist(file))])
    ensures s.closers[cpu := Closer(s.held[file], Unlist(file))] - {cpu} == s.closers
  {
  }

  /** The start of a close and its first operation. */
  lemma Unlists(s: Snapshot, cpu: Cpu, file: File)
    requires cpu !in s.closers && file in s.held
    ensures Enabled(Next(s, Begin(cpu, file)), Go(cpu))
    ensures var s1 := Next(s, Begin(cpu, file));
            var s2 := Next(s1, Go(cpu));
            && RunAlone(s1, cpu) == RunAlone(s2, cpu) && s2.Is(cpu, s.held[file], FindCount)
            && s2.closers - {cpu} == s.closers && s2.files == s.files - {file} && s2.counts == s.counts
            && s2.released == s.released && s2.held == s.held - {file}
  {
    hide RunAlone, Next, ClosersAfter;
    Begins(s, cpu, file);
    UnlistsFrom(s.(held := s.held - {file}, closers := s.closers[cpu := Closer(s.held[file], Unlist(file))]),
                cpu, s.held[file], file);
  }

  lemma UnlistsFrom(s: Snapshot, cpu: Cpu, exe: ExeKey, file: File)
    requires s.Is(cpu, exe, Unlist(file))
    ensures var s2 := Next(s, Go(cpu));
            && RunAlone(s, cpu) == RunAlone(s2, cpu) && s2.Is(cpu, exe, FindCount)
            && s2.closers - {cpu} == s.closers - {cpu} && s2.files == s.files - {file} && s2.counts == s.counts
            && s2.released == s.released && s2.held == s.held
  {
    hide RunAlone, ClosersAfter, OwedAfter, Finishes;
    Goes(s, cpu, exe, Unlist(file));
    NeverEndsAt(s, cpu, exe, Unlist(file));
  }

  lemma Finished(s: Snapshot, cpu: Cpu)
    requires cpu !in s.closers
    ensures RunAlone(s, cpu) == s
  {
  }

  /** Run alone, the single operations are the release hook as one step. */
  lemma AloneIsDrop(s: Snapshot, cpu: Cpu, file: File)
    requires cpu !in s.closers && file in s.held && file in s.files && s.held[file] == s.files[file]
    requires forall e | e in s.counts :: 0 < s.counts[e] < WORD32
    ensures var end := RunAlone(Next(s, Begin(cpu, file)), cpu);
            var (handles, gone) := Handles(s.files, s.counts).Drop(file);
            && end.files == handles.files && end.counts == handles.counts && end.closers == s.closers
            && end.released == s.released + if gone.Some? then [gone.value] else []
  {
    hide Dec32, RunAlone, Next;
    AloneEnds(s, cpu, file);
  }

  /** And the open step is the tracking of the open hook: it is there exactly when tracking changes something. */
  lemma OpenIsTrack(s: Snapshot, file: File, exe: ExeKey)
    requires forall e | e in s.counts :: 0 <= s.counts[e] < WORD32 - 1
    ensures var tracked := Handles(s.files, s.counts).Track(file, exe);
            && (Enabled(s, OpenFile(file, exe)) <==> tracked != Handles(s.files, s.counts))
            && (Enabled(s, OpenFile(file, exe)) ==>
                  && Next(s, OpenFile(file, exe)).files == tracked.files
                  && Next(s, OpenFile(file, exe)).counts == tracked.counts)
  {
    hide Inc32, OwedAfter;
    if Enabled(s, OpenFile(file, exe)) {
      assert file in Handles(s.files, s.counts).Track(file, exe).files;
    }
  }

  // ---------------------------------------------------------------------------
  // What the race allows, and where it stops being harmless
  // ---------------------------------------------------------------------------

  /** A step, if it is enabled. */
  function Do(s: Snapshot, step: Step): Snapshot {
    if Enabled(s, step) then Next(s, step) else s
  }

  /** Two closes that both decremented before either looked again both report: a release event may come twice. */
  lemma BothMayReport(s: Snapshot, a: Cpu, b: Cpu, exe: ExeKey)
    requires a != b && s.Is(a, exe, ReRead) && s.Is(b, exe, ReRead) && exe in s.counts && s.counts[exe] == 0
    ensures var zeros := Do(Do(s, Go(a)), Go(b));
            var deleted := Do(Do(zeros, Go(a)), Go(b));
            Do(Do(deleted, Go(a)), Go(b)).released == s.released + [exe, exe]
  {
    hide FilesAfter, HeldAfter, OwedAfter, ClosersAfter;
    var s1 := Do(s, Go(a));
    OnlyMoves(s, a, exe, ReRead, b);
    OnlyMoves(s1, b, exe, ReRead, a);
    var s2 := Do(s1, Go(b));
    OnlyMoves(s2, a, exe, DeleteCount, b);
    var s3 := Do(s2, Go(a));
    OnlyMoves(s3, b, exe, DeleteCount, a);
    var s4 := Do(s3, Go(b));
    OnlyMoves(s4, a, exe, Report, b);
  }

  /** A close at a zero goes on, and the other one stays where it is. */
  lemma OnlyMoves(s: Snapshot, cpu: Cpu, exe: ExeKey, phase: Phase, other: Cpu)
    requires s.Is(cpu, exe, phase) && other != cpu && other in s.closers
    requires phase.ReRead? ==> exe in s.counts && s.counts[exe] == 0
    requires phase.ReRead? || phase.DeleteCount? || phase.Report?
    ensures other in ClosersAfter(s, Go(cpu)) && ClosersAfter(s, Go(cpu))[other] == s.closers[other]
    ensures !phase.Report? ==> Next(s, Go(cpu)).Is(cpu, exe, Later(phase))
  {
  }

  lemma Opens(s: Snapshot, file: File, exe: ExeKey)
    requires Enabled(s, OpenFile(file, exe))
    ensures var n := Do(s, OpenFile(file, exe));
            && n.counts == s.counts[exe := if exe in s.counts then s.counts[exe] + 1 else 1]
            && n.closers == s.closers && n.released == s.released && n.held == s.held[file := exe]
  {
    hide OwedAfter;
  }

  /**
   What an open costs that lands after a close of the same executable has observed zero and before it deletes the count:
   its own count is deleted, its session is reported over while the handle is held, and closing that handle reports
   nothing.
   */
  lemma OpenBeforeTheDeletion(s: Snapshot, cpu: Cpu, file: File, exe: ExeKey, later: Cpu)
    requires s.Is(cpu, exe, DeleteCount) && Enabled(s, OpenFile(file, exe)) && later !in s.closers
    ensures var reported := Do(Do(Do(s, OpenFile(file, exe)), Go(cpu)), Go(cpu));
            && reported.released == s.released + [exe] && file in HeldBy(reported.held, exe)
            && var closed := RunAlone(Do(reported, Begin(later, file)), later);
               closed.released == reported.released && later !in closed.closers && file !in closed.held
  {
    hide RunAlone, Next;
    Opens(s, file, exe);
    var tracked := Do(s, OpenFile(file, exe));
    Deletes(tracked, cpu, exe);
    var deleted := Do(tracked, Go(cpu));
    ReportsAndEnds(deleted, cpu, exe);
    AloneEnds(Do(deleted, Go(cpu)), later, file);
  }

  /**
   What it costs between the deletion and the report: its session is reported over while the handle is held, but closing
   the handle reports again.
   */
  lemma OpenBeforeTheReport(s: Snapshot, cpu: Cpu, file: File, exe: ExeKey, later: Cpu)
    requires s.Is(cpu, exe, Report) && exe !in s.counts && Enabled(s, OpenFile(file, exe)) && later !in s.closers
    ensures var reported := Do(Do(s, OpenFile(file, exe)), Go(cpu));
            && reported.released == s.released + [exe] && file in HeldBy(reported.held, exe)
            && var closed := RunAlone(Do(reported, Begin(later, file)), later);
               closed.released == s.released + [exe, exe] && later !in closed.closers && file !in closed.held
  {
    hide RunAlone, Next;
    Opens(s, file, exe);
    var tracked := Do(s, OpenFile(file, exe));
    ReportsAndEnds(tracked, cpu, exe);
    AloneEnds(Do(tracked, Go(cpu)), later, file);
  }
}
