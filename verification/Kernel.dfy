/** The two kernel hooks and their maps: the verdict on an open, the handles being tracked, and the coalesced events. */
module Kernel {
  import opened Text
  import opened Common

  const V4L2_MAJOR: nat := 81
  const ALSA_MAJOR: nat := 116
  const OPEN_FILES_MAX: nat := 4096
  const WORD32: nat := 0x1_0000_0000
  const WORD64: nat := 0x1_0000_0000_0000_0000
  const EPERM := 1

  type File = nat

  /** The executable behind a task, as inode and device. */
  datatype ExeKey = ExeKey(ino: nat, dev: nat)

  /** One burst per executable and device class. */
  datatype BurstKey = BurstKey(exe: ExeKey, major: nat)

  datatype Burst = Burst(lastNs: nat, suppressed: nat, denied: bool)

  datatype Config = Config(enforceCamera: bool, enforceAudio: bool, coalesceNs: nat)

  datatype Event =
    | OpenEvent(key: BurstKey, minor: nat, denied: bool, suppressed: nat)
    | ReleaseEvent(exe: ExeKey)

  /** A call of the open hook: `earlier` is the answer of the modules before it, `exe` is absent for kernel threads. */
  datatype Open = Open(earlier: int, file: File, major: nat, minor: nat, exe: Option<ExeKey>, now: nat)

  // ---------------------------------------------------------------------------
  // What each part of a hook does
  // ---------------------------------------------------------------------------

  /** What the two policy maps and the configuration say; absent configuration fails open. */
  datatype Enforcement = Enforcement(policy: map<ExeKey, Perms>, minors: set<nat>, config: Option<Config>)
  {
    predicate Granted(exe: ExeKey, bit: Perms) {
      exe in policy && Has(policy[exe], bit)
    }

    /** Cameras by major, capture devices by minor; nothing else is ever denied. */
    predicate Denies(exe: ExeKey, major: nat, minor: nat) {
      && config.Some?
      && ((major == V4L2_MAJOR && config.value.enforceCamera && !Granted(exe, PERM_CAMERA))
          || (major == ALSA_MAJOR && config.value.enforceAudio && minor in minors && !Granted(exe, PERM_AUDIO)))
    }
  }

  function Inc32(x: nat): (r: nat)
    ensures x + 1 < WORD32 ==> r == x + 1
  {
    (x + 1) % WORD32
  }

  function Dec32(x: nat): (r: nat)
    ensures 0 < x < WORD32 ==> r == x - 1
  {
    (x + WORD32 - 1) % WORD32
  }

  function Minus64(x: nat, y: nat): (r: nat)
    ensures y <= x < WORD64 ==> r == x - y
  {
    (x - y) % WORD64
  }

  /** The tracked camera handles and how many each executable holds. */
  datatype Handles = Handles(files: map<File, ExeKey>, counts: map<ExeKey, nat>)
  {
    /** A handle already tracked, or a full table, changes nothing. */
    function Track(file: File, exe: ExeKey): Handles {
      if file in files || |files| >= OPEN_FILES_MAX then this
      else Handles(files[file := exe], counts[exe := if exe in counts then Inc32(counts[exe]) else 1])
    }

    /** The release hook, run alone. */
    function Drop(file: File): (Handles, Option<ExeKey>) {
      if file !in files then (this, None)
      else
        var exe, left := files[file], files - {file};
        if exe !in counts then (Handles(left, counts), None)
        else
          var n := Dec32(counts[exe]);
          if n != 0 then (Handles(left, counts[exe := n]), None) else (Handles(left, counts - {exe}), Some(exe))
    }
  }

  /** An open inside the window is counted and kept quiet. */
  predicate Quiet(bursts: map<BurstKey, Burst>, key: BurstKey, now: nat, window: nat) {
    key in bursts && Minus64(now, bursts[key].lastNs) < window
  }

  function BurstsAfterOpen(bursts: map<BurstKey, Burst>, key: BurstKey, now: nat, window: nat, denied: bool)
    : map<BurstKey, Burst>
  {
    if Quiet(bursts, key, now, window) then bursts[key := bursts[key].(suppressed := Inc32(bursts[key].suppressed))]
    else bursts[key := Burst(now, 0, denied)]
  }

  function Stranded(bursts: map<BurstKey, Burst>, key: BurstKey): nat {
    if key in bursts then bursts[key].suppressed else 0
  }

  // ---------------------------------------------------------------------------
  // The hooks
  // ---------------------------------------------------------------------------

  datatype State = State(rules: Enforcement, handles: Handles, bursts: map<BurstKey, Burst>)

  /** Device opens with an executable behind them, that nobody else denied, with a configuration in place. */
  predicate Handled(s: State, o: Open) {
    o.earlier == 0 && o.major in {V4L2_MAJOR, ALSA_MAJOR} && o.exe.Some? && s.rules.config.Some?
  }

  predicate DeniedOpen(s: State, o: Open) {
    Handled(s, o) && s.rules.Denies(o.exe.value, o.major, o.minor)
  }

  function AfterOpen(s: State, o: Open): State {
    if !Handled(s, o) then s
    else
      var denied, key := DeniedOpen(s, o), BurstKey(o.exe.value, o.major);
      State(s.rules,
            if o.major == V4L2_MAJOR && !denied then s.handles.Track(o.file, o.exe.value) else s.handles,
            BurstsAfterOpen(s.bursts, key, o.now, s.rules.config.value.coalesceNs, denied))
  }

  /** The event an open reports when the ring has room. */
  function Reports(s: State, o: Open): Option<Event> {
    if !Handled(s, o) then None
    else
      var key := BurstKey(o.exe.value, o.major);
      if Quiet(s.bursts, key, o.now, s.rules.config.value.coalesceNs) then None
      else Some(OpenEvent(key, o.minor, DeniedOpen(s, o), Stranded(s.bursts, key)))
  }

  class Hooks {
    var policy: map<ExeKey, Perms>
    var captureMinors: set<nat>
    var config: Option<Config>
    var openFiles: map<File, ExeKey>
    var openCounts: map<ExeKey, nat>
    var coalesce: map<BurstKey, Burst>
    var ring: seq<Event>

    constructor ()
      ensures Abstract() == State(Enforcement(map[], {}, None), Handles(map[], map[]), map[])
      ensures ring == []
    {
      policy, captureMinors, config := map[], {}, None;
      openFiles, openCounts, coalesce, ring := map[], map[], map[], [];
    }

    function Abstract(): State
      reads this
    {
      State(Enforcement(policy, captureMinors, config), Handles(openFiles, openCounts), coalesce)
    }

    method Verdict(pk: ExeKey, major: nat, minor: nat) returns (verdict: int, denied: bool)
      requires config.Some?
      ensures denied == Enforcement(policy, captureMinors, config).Denies(pk, major, minor)
      ensures verdict == if denied then -EPERM else 0
    {
      hide Has;
      verdict, denied := 0, false;
      if major == V4L2_MAJOR && config.value.enforceCamera {
        if pk !in policy || !Has(policy[pk], PERM_CAMERA) {
          verdict, denied := -EPERM, true;
        }
      } else if major == ALSA_MAJOR && config.value.enforceAudio {
        if minor in captureMinors {
          if pk !in policy || !Has(policy[pk], PERM_AUDIO) {
            verdict, denied := -EPERM, true;
          }
        }
      }
    }

    method FileOpen(o: Open, ringHasRoom: bool) returns (ret: int)
      modifies `openFiles, `openCounts, `coalesce, `ring
      ensures o.earlier != 0 ==> ret == o.earlier
      ensures o.earlier == 0 ==>
                ret == if o.exe.Some? && old(Abstract()).rules.Denies(o.exe.value, o.major, o.minor) then -EPERM else 0
      ensures Abstract() == AfterOpen(old(Abstract()), o)
      ensures var e := Reports(old(Abstract()), o);
              ring == old(ring) + if e.Some? && ringHasRoom then [e.value] else []
    {
      hide Has, Minus64, Inc32;
      if o.earlier != 0 {
        return o.earlier;
      }
      if o.major != V4L2_MAJOR && o.major != ALSA_MAJOR {
        return o.earlier;
      }
      if o.exe.None? || config.None? {
        return o.earlier;
      }
      var pk, cfg := o.exe.value, config.value;
      var verdict, denied := Verdict(pk, o.major, o.minor);

      if o.major == V4L2_MAJOR && verdict == 0 {
        if o.file !in openFiles && |openFiles| < OPEN_FILES_MAX {
          openFiles := openFiles[o.file := pk];
          if pk in openCounts {
            openCounts := openCounts[pk := Inc32(openCounts[pk])];
          } else {
            openCounts := openCounts[pk := 1];
          }
        }
      }

      var ck := BurstKey(pk, o.major);
      var suppressed := 0;
      if ck in coalesce {
        var cv := coalesce[ck];
        if Minus64(o.now, cv.lastNs) < cfg.coalesceNs {
          coalesce := coalesce[ck := cv.(suppressed := Inc32(cv.suppressed))];
          return verdict;
        }
        suppressed := cv.suppressed;
        coalesce := coalesce[ck := Burst(o.now, 0, denied)];
      } else {
        coalesce := coalesce[ck := Burst(o.now, 0, denied)];
      }

      if ringHasRoom {
        ring := ring + [OpenEvent(ck, o.minor, denied, suppressed)];
      }
      return verdict;
    }

    method FileRelease(file: File, major: nat, ringHasRoom: bool)
      modifies `openFiles, `openCounts, `ring
      ensures var (handles, gone) := Handles(old(openFiles), old(openCounts)).Drop(file);
              if major == V4L2_MAJOR
              then Handles(openFiles, openCounts) == handles
                   && ring == old(ring) + if gone.Some? && ringHasRoom then [ReleaseEvent(gone.value)] else []
              else unchanged(this)
    {
      if major != V4L2_MAJOR {
        return;
      }
      if file !in openFiles {
        return;
      }
      var pk := openFiles[file];
      openFiles := openFiles - {file};
      if pk !in openCounts {
        return;
      }
      openCounts := openCounts[pk := Dec32(openCounts[pk])];
      if openCounts[pk] != 0 {
        return;
      }
      openCounts := openCounts - {pk};
      if ringHasRoom {
        ring := ring + [ReleaseEvent(pk)];
      }
    }
  }

  // ---------------------------------------------------------------------------
  // What an open leads to
  // ---------------------------------------------------------------------------

  /** An open is denied if and only if nobody denied it before, there is an executable, and the policy denies it. */
  lemma DeniedOpenIff(s: State, o: Open)
    ensures DeniedOpen(s, o) <==> o.earlier == 0 && o.exe.Some? && s.rules.Denies(o.exe.value, o.major, o.minor)
  {
    hide Has;
  }

  /**
   What is reported, in numbers, on a clock that does not go back: every open of a camera or a sound device that nobody
   denied before, with an executable and a configuration in place, unless one of the same executable and class opened a
   burst less than a window ago. The event names the device, the verdict, and what its burst had counted until then.
   */
  lemma ReportsIff(s: State, o: Open)
    requires o.now < WORD64 && forall k | k in s.bursts :: s.bursts[k].lastNs <= o.now
    ensures Reports(s, o).Some?
       <==> && o.earlier == 0 && (o.major == V4L2_MAJOR || o.major == ALSA_MAJOR) && o.exe.Some? && s.rules.config.Some?
            && var key := BurstKey(o.exe.value, o.major);
               key in s.bursts ==> s.bursts[key].lastNs + s.rules.config.value.coalesceNs <= o.now
    ensures Reports(s, o).Some? ==>
              var e := Reports(s, o).value;
              && e.OpenEvent? && e.key.exe == o.exe.value && e.key.major == o.major && e.minor == o.minor
              && e.denied == s.rules.Denies(o.exe.value, o.major, o.minor)
              && e.suppressed == if e.key in s.bursts then s.bursts[e.key].suppressed else 0
  {
    hide Has;
  }

  /**
   And what is not reported is counted: a handled open inside its burst's window adds one to the burst, any other starts
   a burst of its own verdict; no other burst moves.
   */
  lemma CountedOrReported(s: State, o: Open)
    requires o.earlier == 0 && (o.major == V4L2_MAJOR || o.major == ALSA_MAJOR) && o.exe.Some? && s.rules.config.Some?
    ensures var key, n := BurstKey(o.exe.value, o.major), AfterOpen(s, o).bursts;
            && key in n && (forall k | k != key :: (k in n <==> k in s.bursts) && (k in n ==> n[k] == s.bursts[k]))
            && (Reports(s, o).Some? ==>
                  n[key] == Burst(o.now, 0, s.rules.Denies(o.exe.value, o.major, o.minor)))
            && (Reports(s, o).None? ==>
                  && key in s.bursts && n[key].lastNs == s.bursts[key].lastNs && n[key].denied == s.bursts[key].denied
                  && (s.bursts[key].suppressed + 1 < WORD32 ==> n[key].suppressed == s.bursts[key].suppressed + 1))
  {
    hide Has, Minus64;
  }

  // ---------------------------------------------------------------------------
  // Handles
  // ---------------------------------------------------------------------------

  /** The tracked handles of one executable. */
  function HeldBy(files: map<File, ExeKey>, exe: ExeKey): set<File> {
    set f | f in files && files[f] == exe
  }

  /** The count of an executable is the number of its handles, present exactly when there is one. */
  ghost predicate CountedFor(h: Handles, exe: ExeKey) {
    && (exe in h.counts <==> HeldBy(h.files, exe) != {})
    && (exe in h.counts ==> h.counts[exe] == |HeldBy(h.files, exe)|)
  }

  ghost predicate Counted(h: Handles) {
    |h.files| <= OPEN_FILES_MAX && forall exe :: CountedFor(h, exe)
  }

  lemma HeldByFits(files: map<File, ExeKey>, exe: ExeKey)
    ensures |HeldBy(files, exe)| <= |files|
  {
    SubsetCard(HeldBy(files, exe), files.Keys);
    assert |files.Keys| == |files|;
  }

  lemma TrackCountsFor(h: Handles, file: File, exe: ExeKey, e: ExeKey)
    requires |h.files| <= OPEN_FILES_MAX && CountedFor(h, e)
    ensures CountedFor(h.Track(file, exe), e)
  {
    hide HeldBy, Inc32;
    if file !in h.files && |h.files| < OPEN_FILES_MAX {
      HeldAfterTrack(h.files, file, exe, e);
      NotHeld(h.files, file, e);
      HeldByFits(h.files, e);
    }
  }

  lemma TrackKeepsCounted(h: Handles, file: File, exe: ExeKey)
    requires Counted(h)
    ensures Counted(h.Track(file, exe))
  {
    hide CountedFor, Inc32;
    forall e ensures CountedFor(h.Track(file, exe), e) {
      TrackCountsFor(h, file, exe, e);
    }
  }

  lemma HeldAfterTrack(files: map<File, ExeKey>, file: File, exe: ExeKey, e: ExeKey)
    requires file !in files
    ensures HeldBy(files[file := exe], e) == HeldBy(files, e) + if e == exe then {file} else {}
  {
  }

  lemma NotHeld(files: map<File, ExeKey>, file: File, exe: ExeKey)
    requires file !in files
    ensures file !in HeldBy(files, exe)
  {
  }

  /** A close ends a session exactly when it drops the last handle of that executable, and the counts stay right. */
  lemma DropKeepsCounted(h: Handles, file: File)
    requires Counted(h)
    ensures Counted(h.Drop(file).0)
    ensures h.Drop(file).1
         == if file in h.files && HeldBy(h.files, h.files[file]) == {file} then Some(h.files[file]) else None
    ensures h.Drop(file).0.files == h.files - {file}
  {
    hide CountedFor, Dec32;
    if file in h.files {
      forall e ensures CountedFor(h.Drop(file).0, e) {
        DropCountsFor(h, file, e);
      }
      DropCountsFor(h, file, h.files[file]);
      assert (h.files - {file}).Keys == h.files.Keys - {file};
    }
  }

  lemma DropCountsFor(h: Handles, file: File, e: ExeKey)
    requires file in h.files && |h.files| <= OPEN_FILES_MAX && CountedFor(h, e) && CountedFor(h, h.files[file])
    ensures CountedFor(h.Drop(file).0, e)
    ensures h.Drop(file).1 == if HeldBy(h.files, h.files[file]) == {file} then Some(h.files[file]) else None
    ensures h.Drop(file).0.files == h.files - {file}
  {
    hide HeldBy, Dec32;
    var exe := h.files[file];
    HeldAfterDrop(h.files, file, e);
    HoldsItsOwn(h.files, file);
    HeldByFits(h.files, exe);
    OnlyOne(HeldBy(h.files, exe), file);
    if e != exe {
      OthersKeepTheirs(h.files, file, e);
    }
  }

  lemma HeldAfterDrop(files: map<File, ExeKey>, file: File, e: ExeKey)
    ensures HeldBy(files - {file}, e) == HeldBy(files, e) - {file}
  {
  }

  lemma HoldsItsOwn(files: map<File, ExeKey>, file: File)
    requires file in files
    ensures file in HeldBy(files, files[file])
  {
  }

  lemma OthersKeepTheirs(files: map<File, ExeKey>, file: File, e: ExeKey)
    requires file in files && e != files[file]
    ensures file !in HeldBy(files, e)
  {
  }

  lemma OnlyOne(a: set<File>, f: File)
    requires f in a
    ensures |a| == 1 <==> a == {f}
  {
    assert a == {f} + (a - {f});
  }

  /** The open of a camera that is let through, into a table with room, for a file that is not in it. */
  predicate Tracks(s: State, o: Open) {
    && o.earlier == 0 && o.major == V4L2_MAJOR && o.exe.Some? && s.rules.config.Some?
    && !s.rules.Denies(o.exe.value, o.major, o.minor) && o.file !in s.handles.files
    && |s.handles.files| < OPEN_FILES_MAX
  }

  /**
   A handle is tracked under its executable exactly when a camera was let through and there was room. Closing it then
   ends the session, if and only if the executable held no other.
   */
  lemma TrackedIff(s: State, o: Open)
    requires Counted(s.handles)
    ensures AfterOpen(s, o).handles.files
         == if Tracks(s, o) then s.handles.files[o.file := o.exe.value] else s.handles.files
    ensures !Tracks(s, o) ==> AfterOpen(s, o).handles == s.handles
    ensures Tracks(s, o) ==>
              AfterOpen(s, o).handles.Drop(o.file).1
              == if HeldBy(s.handles.files, o.exe.value) == {} then Some(o.exe.value) else None
  {
    hide Has, Inc32, Dec32, BurstsAfterOpen;
    if Tracks(s, o) {
      TrackKeepsCounted(s.handles, o.file, o.exe.value);
      DropKeepsCounted(AfterOpen(s, o).handles, o.file);
      HeldAfterTrack(s.handles.files, o.file, o.exe.value, o.exe.value);
      NotHeld(s.handles.files, o.file, o.exe.value);
      NoOther(HeldBy(s.handles.files, o.exe.value), o.file);
    }
  }

  lemma NoOther(held: set<File>, file: File)
    requires file !in held
    ensures held + {file} == {file} <==> held == {}
  {
    if f :| f in held {
      assert f in held + {file};
    }
  }

  // ---------------------------------------------------------------------------
  // Runs
  // ---------------------------------------------------------------------------

  datatype Step =
    | Opening(o: Open)
    | Closing(file: File, at: nat)
    | Flushing(key: BurstKey, flushedAt: nat)
    | Pushing(rules: Enforcement, pushedAt: nat)
  {
    function When(): nat {
      match this
      case Opening(o) => o.now
      case Closing(_, t) => t
      case Flushing(_, t) => t
      case Pushing(_, t) => t
    }
  }

  /** A flush clears the counter of a burst and keeps the start of its window and its verdict. */
  function Flushed(bursts: map<BurstKey, Burst>, key: BurstKey): map<BurstKey, Burst> {
    if key in bursts then bursts[key := bursts[key].(suppressed := 0)] else bursts
  }

  function Next(s: State, step: Step): State {
    match step
    case Opening(o) => AfterOpen(s, o)
    case Closing(file, _) => s.(handles := s.handles.Drop(file).0)
    case Flushing(key, _) => s.(bursts := Flushed(s.bursts, key))
    case Pushing(rules, _) => s.(rules := rules)
  }

  function After(s: State, steps: seq<Step>): State {
    if steps == [] then s else Next(After(s, steps[..|steps| - 1]), steps[|steps| - 1])
  }

  /** Over any run, the count of an executable is the number of its tracked handles. */
  lemma {:induction false} RunKeepsCounted(s: State, steps: seq<Step>)
    requires Counted(s.handles)
    ensures Counted(After(s, steps).handles)
  {
    hide Counted;
    if steps != [] {
      RunKeepsCounted(s, steps[..|steps| - 1]);
      var before := After(s, steps[..|steps| - 1]);
      match steps[|steps| - 1] {
        case Opening(o) =>
          if o.exe.Some? {
            TrackKeepsCounted(before.handles, o.file, o.exe.value);
          }
        case Closing(file, _) => DropKeepsCounted(before.handles, file);
        case Flushing(_, _) =>
        case Pushing(_, _) =>
      }
    }
  }

  /** Time never goes back, stays below a word, and the coalescing window is fixed. */
  ghost predicate Clocked(steps: seq<Step>, window: nat) {
    && (forall i, j | 0 <= i <= j < |steps| :: steps[i].When() <= steps[j].When() < WORD64)
    && (forall i | 0 <= i < |steps| && steps[i].Pushing? && steps[i].rules.config.Some? ::
          steps[i].rules.config.value.coalesceNs == window)
  }

  /** The window starts of a state lie in its past. */
  ghost predicate Past(s: State, now: nat, window: nat) {
    && (forall k | k in s.bursts :: s.bursts[k].lastNs <= now)
    && (s.rules.config.Some? ==> s.rules.config.value.coalesceNs == window)
  }

  lemma {:induction false} RunStaysPast(s: State, steps: seq<Step>, window: nat)
    requires Clocked(steps, window) && Past(s, 0, window)
    ensures Past(After(s, steps), if steps == [] then 0 else steps[|steps| - 1].When(), window)
  {
    if steps != [] {
      RunStaysPast(s, steps[..|steps| - 1], window);
    }
  }

  lemma WindowStep(s: State, step: Step, now: nat, window: nat, key: BurstKey, t: nat)
    requires Past(s, now, window) && now <= step.When()
    requires key in s.bursts && s.bursts[key].lastNs >= t
    ensures key in Next(s, step).bursts && Next(s, step).bursts[key].lastNs >= t
  {
    hide Minus64, Inc32, DeniedOpen;
  }

  /** Once a window has started for a key, it never starts earlier again, whatever is flushed. */
  lemma {:induction false} WindowNeverGoesBack(s: State, steps: seq<Step>, window: nat, i: nat, key: BurstKey, t: nat)
    requires Clocked(steps, window) && Past(s, 0, window) && i <= |steps|
    requires key in After(s, steps[..i]).bursts && After(s, steps[..i]).bursts[key].lastNs >= t
    ensures key in After(s, steps).bursts && After(s, steps).bursts[key].lastNs >= t
    decreases |steps|
  {
    hide Past, Next;
    if i == |steps| {
      assert steps[..i] == steps;
    } else {
      var front := steps[..|steps| - 1];
      assert front[..i] == steps[..i];
      WindowNeverGoesBack(s, front, window, i, key, t);
      RunStaysPast(s, front, window);
      var now := if front == [] then 0 else front[|front| - 1].When();
      WindowStep(After(s, front), steps[|steps| - 1], now, window, key, t);
    }
  }

  lemma ReportStartsWindow(s: State, o: Open)
    requires Reports(s, o).Some?
    ensures var key := Reports(s, o).value.key;
            key in AfterOpen(s, o).bursts && AfterOpen(s, o).bursts[key] == Burst(o.now, 0, DeniedOpen(s, o))
  {
    hide Minus64, DeniedOpen;
  }

  /**
   Two open events of one executable and device class are at least the coalescing window apart, however many flushes,
   pushes and closes run between them.
   */
  lemma EventsAreAWindowApart(s: State, steps: seq<Step>, window: nat, i: nat, j: nat)
    requires Clocked(steps, window) && Past(s, 0, window) && i < j < |steps|
    requires steps[i].Opening? && steps[j].Opening?
    requires Reports(After(s, steps[..i]), steps[i].o).Some? && Reports(After(s, steps[..j]), steps[j].o).Some?
    requires Reports(After(s, steps[..i]), steps[i].o).value.key == Reports(After(s, steps[..j]), steps[j].o).value.key
    ensures steps[j].When() - steps[i].When() >= window
  {
    hide After, AfterOpen, DeniedOpen;
    var before, later, front := After(s, steps[..i]), After(s, steps[..j]), steps[..j];
    var key := Reports(before, steps[i].o).value.key;
    ReportStartsWindow(before, steps[i].o);
    OneMore(s, steps, i);
    assert front[..i + 1] == steps[..i + 1];
    WindowNeverGoesBack(s, front, window, i + 1, key, steps[i].When());
    RunStaysPast(s, front, window);
    assert front[|front| - 1].When() <= steps[j].When();
  }

  lemma OneMore(s: State, steps: seq<Step>, i: nat)
    requires i < |steps|
    ensures After(s, steps[..i + 1]) == Next(After(s, steps[..i]), steps[i])
  {
    assert steps[..i + 1][..i] == steps[..i];
  }
}
