/** `while_in_use` sessions: granted, opened, kept alive by a link or a settle window, and ended. */
module Sessions {
  import opened Text
  import opened Common
  import opened Names
  import opened Rules
  import opened KernelPolicy

  /** Times are points of a clock that never goes back. */
  type Instant = nat

  /** Answered but not opened yet, or opened at least once. */
  datatype SessionState = AwaitingFirstOpen(grantedAt: Instant) | Open(since: Instant)

  datatype Connection = Connection(appName: string, category: Category)

  /** A session belongs to an application, by normalised name, and a device category. */
  type SessionKey = (string, Category)

  function KeyOf(app: string, c: Category): SessionKey {
    (Normalize(app), c)
  }

  datatype Tracker = Tracker(active: map<nat, Connection>, sessions: map<SessionKey, SessionState>)

  function Elapsed(since: Instant, now: Instant): nat {
    if now >= since then now - since else 0
  }

  /** Some link of the application to this kind of device is up. */
  predicate HasActiveLink(active: map<nat, Connection>, app: string, c: Category) {
    exists id | id in active :: active[id].category == c && Normalize(active[id].appName) == Normalize(app)
  }

  /** The connection is the application's, to this kind of device. */
  predicate IsFor(connection: Connection, k: SessionKey) {
    connection.category == k.1 && Normalize(connection.appName) == Normalize(k.0)
  }

  predicate NormalKey(k: SessionKey) {
    Normalize(k.0) == k.0
  }

  lemma ActiveLinkIs(active: map<nat, Connection>, k: SessionKey)
    ensures HasActiveLink(active, k.0, k.1) <==> exists id | id in active :: IsFor(active[id], k)
  {
    hide Normalize;
  }

  predicate Live(active: map<nat, Connection>, app: string, c: Category, s: SessionState, settle: nat, now: Instant) {
    match s
    case AwaitingFirstOpen(_) => true
    case Open(since) => HasActiveLink(active, app, c) || Elapsed(since, now) < settle
  }

  predicate SessionLive(t: Tracker, app: string, c: Category, settle: nat, now: Instant) {
    KeyOf(app, c) in t.sessions && Live(t.active, Normalize(app), c, t.sessions[KeyOf(app, c)], settle, now)
  }

  function GrantedAt(s: SessionState): Instant {
    match s
    case AwaitingFirstOpen(t) => t
    case Open(t) => t
  }

  /** The live sessions and their ages. */
  function LiveSessions(t: Tracker, settle: nat, now: Instant): map<SessionKey, nat> {
    map k | k in t.sessions && Live(t.active, k.0, k.1, t.sessions[k], settle, now) ::
      Elapsed(GrantedAt(t.sessions[k]), now)
  }

  /** What ends now: an opened session without a link whose settle window passed, a grant that waited too long. */
  predicate Ended(active: map<nat, Connection>, k: SessionKey, s: SessionState, settle: nat, awaiting: nat,
                  now: Instant) {
    match s
    case AwaitingFirstOpen(t) => awaiting > 0 && Elapsed(t, now) >= awaiting
    case Open(since) => !HasActiveLink(active, k.0, k.1) && Elapsed(since, now) >= settle
  }

  function EndedKeys(t: Tracker, settle: nat, awaiting: nat, now: Instant): set<SessionKey> {
    set k | k in t.sessions && Ended(t.active, k, t.sessions[k], settle, awaiting, now)
  }

  datatype Step =
    | Begin(app: string, category: Category)
    | MarkOpened(app: string, category: Category)
    | Refresh(app: string, category: Category)
    | Connect(id: nat, connection: Connection)
    | Disconnect(gone: nat)
    | Expire(settle: nat, awaiting: nat)
    | Released(app: string, category: Category)

  function Next(t: Tracker, step: Step, now: Instant): Tracker {
    match step
    case Begin(app, c) => t.(sessions := t.sessions[KeyOf(app, c) := AwaitingFirstOpen(now)])
    case MarkOpened(app, c) =>
      var k := KeyOf(app, c);
      if k in t.sessions && t.sessions[k].AwaitingFirstOpen? then t.(sessions := t.sessions[k := Open(now)]) else t
    case Refresh(app, c) =>
      var k := KeyOf(app, c);
      if k in t.sessions && t.sessions[k].Open? then t.(sessions := t.sessions[k := Open(now)]) else t
    case Connect(id, connection) => t.(active := t.active[id := connection])
    case Disconnect(id) => t.(active := t.active - {id})
    case Expire(settle, awaiting) => t.(sessions := t.sessions - EndedKeys(t, settle, awaiting, now))
    case Released(app, c) => t.(sessions := t.sessions - {KeyOf(app, c)})
  }

  /** A try to ask, and the end of a question, whichever way it was answered. */
  datatype PromptStep = Claim(app: string, category: Category) | Answered(app: string, category: Category)

  function PromptsAfter(pending: set<SessionKey>, step: PromptStep): set<SessionKey> {
    match step
    case Claim(app, c) => pending + {KeyOf(app, c)}
    case Answered(app, c) => pending - {KeyOf(app, c)}
  }

  class StreamTracker {
    var active: map<nat, Connection>
    var whileInUse: map<SessionKey, SessionState>
    var pendingPrompts: set<SessionKey>

    function Now(): Tracker
      reads `active, `whileInUse
    {
      Tracker(active, whileInUse)
    }

    constructor ()
      ensures Now() == Tracker(map[], map[]) && pendingPrompts == {}
    {
      active, whileInUse, pendingPrompts := map[], map[], {};
    }

    /** The right to ask about an application and a device; refused while a question about them waits for an answer. */
    method TryBeginPrompt(app: string, c: Category) returns (claimed: bool)
      modifies `pendingPrompts
      ensures pendingPrompts == PromptsAfter(old(pendingPrompts), Claim(app, c))
      ensures claimed == (pendingPrompts != old(pendingPrompts))
    {
      claimed := KeyOf(app, c) !in pendingPrompts;
      pendingPrompts := pendingPrompts + {KeyOf(app, c)};
    }

    method EndPrompt(app: string, c: Category)
      modifies `pendingPrompts
      ensures pendingPrompts == PromptsAfter(old(pendingPrompts), Answered(app, c))
    {
      pendingPrompts := pendingPrompts - {KeyOf(app, c)};
    }

    method BeginSession(app: string, c: Category, now: Instant)
      modifies `whileInUse
      ensures Now() == Next(old(Now()), Begin(app, c), now)
    {
      whileInUse := whileInUse[KeyOf(app, c) := AwaitingFirstOpen(now)];
    }

    /** True only on the transition. */
    method MarkSessionOpened(app: string, c: Category, now: Instant) returns (first: bool)
      modifies `whileInUse
      ensures Now() == Next(old(Now()), MarkOpened(app, c), now)
      ensures first == (KeyOf(app, c) in old(whileInUse) && old(whileInUse)[KeyOf(app, c)].AwaitingFirstOpen?)
    {
      hide Normalize;
      var key := KeyOf(app, c);
      if key in whileInUse && whileInUse[key].AwaitingFirstOpen? {
        whileInUse := whileInUse[key := Open(now)];
        return true;
      }
      return false;
    }

    method RefreshSession(app: string, c: Category, now: Instant)
      modifies `whileInUse
      ensures Now() == Next(old(Now()), Refresh(app, c), now)
    {
      hide Normalize;
      var key := KeyOf(app, c);
      if key in whileInUse && whileInUse[key].Open? {
        whileInUse := whileInUse[key := Open(now)];
      }
    }

    method AddConnection(id: nat, connection: Connection)
      modifies `active
      ensures Now() == Next(old(Now()), Connect(id, connection), 0)
    {
      active := active[id := connection];
    }

    method RemoveConnection(id: nat)
      modifies `active
      ensures Now() == Next(old(Now()), Disconnect(id), 0)
    {
      active := active - {id};
    }

    /** Collect what has ended, then remove it. */
    method ExpireSessions(settle: nat, awaiting: nat, now: Instant) returns (ended: set<SessionKey>)
      modifies `whileInUse
      ensures ended == EndedKeys(old(Now()), settle, awaiting, now)
      ensures Now() == Next(old(Now()), Expire(settle, awaiting), now)
    {
      hide Ended;
      ended := EndedKeys(Now(), settle, awaiting, now);
      var left := ended;
      while left != {}
        invariant left <= ended && whileInUse == old(whileInUse) - (ended - left)
        decreases |left|
      {
        var k :| k in left;
        RemoveOneMore(old(whileInUse), ended - left, k);
        assert ended - left + {k} == ended - (left - {k});
        left := left - {k};
        whileInUse := whileInUse - {k};
      }
    }
  }

  lemma RemoveOneMore(m: map<SessionKey, SessionState>, done: set<SessionKey>, k: SessionKey)
    ensures (m - done) - {k} == m - (done + {k})
  {
  }

  // ---------------------------------------------------------------------------
  // What holds of every state
  // ---------------------------------------------------------------------------

  /** Sessions are stored under normalised names. */
  predicate Normal(t: Tracker) {
    forall k | k in t.sessions :: NormalKey(k)
  }

  lemma StepKeepsNormal(t: Tracker, step: Step, now: Instant)
    requires Normal(t)
    ensures Normal(Next(t, step, now))
  {
    hide Normalize, Ended;
    if step.Begin? || step.MarkOpened? || step.Refresh? {
      NormalizeIdempotent(step.app);
    }
  }

  /**
   What is shown and what is enforced cannot disagree: the live list names exactly the sessions that count as live.
   */
  lemma LiveListIsExact(t: Tracker, app: string, c: Category, settle: nat, now: Instant)
    ensures SessionLive(t, app, c, settle, now) <==> KeyOf(app, c) in LiveSessions(t, settle, now)
  {
    hide Normalize;
  }

  /** An opened session ends exactly when it has no link and its window has passed; a grant only by its own bound. */
  lemma WhatExpires(t: Tracker, k: SessionKey, settle: nat, awaiting: nat, now: Instant)
    requires k in t.sessions
    ensures k !in Next(t, Expire(settle, awaiting), now).sessions
       <==> match t.sessions[k]
            case Open(since) => !HasActiveLink(t.active, k.0, k.1) && Elapsed(since, now) >= settle
            case AwaitingFirstOpen(granted) => awaiting > 0 && Elapsed(granted, now) >= awaiting
  {
    hide Normalize, HasActiveLink;
  }

  /** Live is what an expiry without a bound on waiting would leave, at the same moment and to the same instant. */
  lemma LiveIffSurvives(t: Tracker, app: string, c: Category, settle: nat, now: Instant)
    requires Normal(t)
    ensures SessionLive(t, app, c, settle, now) <==> KeyOf(app, c) in Next(t, Expire(settle, 0), now).sessions
  {
    hide Normalize;
    NormalizeIdempotent(app);
  }

  // ---------------------------------------------------------------------------
  // Runs
  // ---------------------------------------------------------------------------

  /** A step and when it happened. */
  type Timed = (Step, Instant)

  const NOTHING := Tracker(map[], map[])

  function After(steps: seq<Timed>): Tracker {
    if steps == [] then NOTHING
    else
      var (step, now) := steps[|steps| - 1];
      Next(After(steps[..|steps| - 1]), step, now)
  }

  ghost predicate Clocked(steps: seq<Timed>) {
    forall i, j | 0 <= i <= j < |steps| :: steps[i].1 <= steps[j].1
  }

  predicate Begins(step: Step, k: SessionKey) {
    step.Begin? && KeyOf(step.app, step.category) == k
  }

  /** A use of the device that counts: the first one of a session, marked, or a later one, refreshed. */
  predicate Uses(t: Tracker, step: Step, k: SessionKey) {
    && (step.MarkOpened? || step.Refresh?) && KeyOf(step.app, step.category) == k
    && k in t.sessions && (if step.MarkOpened? then t.sessions[k].AwaitingFirstOpen? else t.sessions[k].Open?)
  }

  /** A step that ends the session. */
  predicate Ends(t: Tracker, step: Step, now: Instant, k: SessionKey) {
    || (step.Expire? && k in EndedKeys(t, step.settle, step.awaiting, now))
    || (step.Released? && KeyOf(step.app, step.category) == k)
  }

  /** Begun at some step, and ended by none since. */
  ghost predicate Standing(steps: seq<Timed>, k: SessionKey) {
    exists i | 0 <= i < |steps| :: Begins(steps[i].0, k) && NotEndedSince(steps, i, k)
  }

  ghost predicate NotEndedSince(steps: seq<Timed>, i: nat, k: SessionKey) {
    forall j | i < j < |steps| :: !Ends(After(steps[..j]), steps[j].0, steps[j].1, k)
  }

  lemma StepExistence(t: Tracker, step: Step, now: Instant, k: SessionKey)
    ensures k in Next(t, step, now).sessions <==> Begins(step, k) || (k in t.sessions && !Ends(t, step, now, k))
  {
    hide Normalize, Ended;
  }

  lemma NotEndedStep(front: seq<Timed>, last: Timed, i: nat, k: SessionKey)
    requires i < |front|
    ensures NotEndedSince(front + [last], i, k)
       <==> NotEndedSince(front, i, k) && !Ends(After(front), last.0, last.1, k)
  {
    hide After, Ends;
    var all := front + [last];
    assert all[..|front|] == front && all[|front|] == last;
    assert forall j | i < j < |front| :: all[..j] == front[..j] && all[j] == front[j];
  }

  lemma StandingStep(front: seq<Timed>, last: Timed, k: SessionKey)
    ensures Standing(front + [last], k)
       <==> Begins(last.0, k) || (Standing(front, k) && !Ends(After(front), last.0, last.1, k))
  {
    hide After, Ends, Begins, NotEndedSince;
    var all := front + [last];
    forall i | 0 <= i < |front|
      ensures Begins(all[i].0, k) && NotEndedSince(all, i, k)
         <==> Begins(front[i].0, k) && NotEndedSince(front, i, k) && !Ends(After(front), last.0, last.1, k)
    {
      NotEndedStep(front, last, i, k);
    }
    assert all[|front|] == last;
    NothingAfterLast(all, k);
  }

  lemma NothingAfterLast(steps: seq<Timed>, k: SessionKey)
    requires steps != []
    ensures NotEndedSince(steps, |steps| - 1, k)
  {
  }

  /** Over every run, a session exists if and only if it was begun and has not been ended since. */
  lemma {:induction false} ExistsIffStanding(steps: seq<Timed>, k: SessionKey)
    ensures k in After(steps).sessions <==> Standing(steps, k)
  {
    hide Next, Ends, Begins;
    if steps != [] {
      var front, last := steps[..|steps| - 1], steps[|steps| - 1];
      ExistsIffStanding(front, k);
      StepExistence(After(front), last.0, last.1, k);
      StandingStep(front, last, k);
      assert front + [last] == steps;
    }
  }

  /** Over every run sessions are stored under normalised names. */
  lemma {:induction false} AfterIsNormal(steps: seq<Timed>)
    ensures Normal(After(steps))
  {
    hide Normal, Next;
    if steps == [] {
      assert Normal(NOTHING) by { NothingIsNormal(); }
    } else {
      var (step, now) := steps[|steps| - 1];
      AfterIsNormal(steps[..|steps| - 1]);
      StepKeepsNormal(After(steps[..|steps| - 1]), step, now);
    }
  }

  lemma NothingIsNormal()
    ensures Normal(NOTHING)
  {
  }

  /** At any moment of any run the live list names exactly the sessions that count as live under their stored name. */
  lemma LiveListIsAccepted(steps: seq<Timed>, settle: nat, now: Instant)
    ensures var t := After(steps);
            LiveSessions(t, settle, now).Keys == set k | k in t.sessions && SessionLive(t, k.0, k.1, settle, now)
  {
    hide Normalize, After, HasActiveLink;
    AfterIsNormal(steps);
  }

  lemma AfterSnoc(front: seq<Timed>, last: Timed)
    ensures After(front + [last]) == Next(After(front), last.0, last.1)
  {
    assert (front + [last])[..|front|] == front;
  }

  /** Right after an expiry, at any moment of any run, every remaining session is live. */
  lemma ExpireLeavesLive(steps: seq<Timed>, settle: nat, awaiting: nat, now: Instant)
    ensures var after := After(steps + [(Expire(settle, awaiting), now)]);
            forall k | k in after.sessions :: SessionLive(after, k.0, k.1, settle, now)
  {
    hide Normalize, HasActiveLink, After;
    AfterIsNormal(steps);
    AfterSnoc(steps, (Expire(settle, awaiting), now));
  }

  /** The rule allows the camera outright, or while in use with a session for its name. */
  predicate CoveredBy(r: Rule, sessions: map<SessionKey, SessionState>) {
    r.camera == Some(Allow) || (r.camera == Some(WhileInUse) && (Key(r), Camera) in sessions)
  }

  /**
   And the camera list follows the sessions: right after an expiry, at any moment of any run, it names exactly the
   binaries of the rules that allow outright and of those that allow while in use and have a session left.
   */
  lemma AllowlistFollowsSessions(steps: seq<Timed>, rules: seq<Rule>, settle: nat, awaiting: nat, now: Instant,
                                 path: string)
    ensures var after := After(steps + [(Expire(settle, awaiting), now)]);
            path in CameraAllowlist(rules, app => SessionLive(after, app, Camera, settle, now))
            <==> exists r | r in rules :: CoveredBy(r, after.sessions) && r.exePath == Some(path)
  {
    hide Normalize, SessionLive, After, CameraAllowlist;
    var after := After(steps + [(Expire(settle, awaiting), now)]);
    var live := app => SessionLive(after, app, Camera, settle, now);
    ListsMean(rules, live);
    forall r ensures CameraGranted(r, live) <==> CoveredBy(r, after.sessions) {
      RuleFollowsSession(steps, r, settle, awaiting, now);
    }
  }

  lemma RuleFollowsSession(steps: seq<Timed>, r: Rule, settle: nat, awaiting: nat, now: Instant)
    ensures var after := After(steps + [(Expire(settle, awaiting), now)]);
            SessionLive(after, r.appName, Camera, settle, now) <==> (Key(r), Camera) in after.sessions
  {
    hide Normalize, HasActiveLink, After;
    ExpireLeavesLive(steps, settle, awaiting, now);
    NormalizeIdempotent(r.appName);
  }

  ghost predicate BegunAt(steps: seq<Timed>, i: nat, k: SessionKey) {
    i < |steps| && Begins(steps[i].0, k)
  }

  ghost predicate UsedAt(steps: seq<Timed>, i: nat, k: SessionKey) {
    i < |steps| && Uses(After(steps[..i]), steps[i].0, k)
  }

  /** A grant is dated by its last beginning, an open session by its last use. */
  ghost predicate Dated(steps: seq<Timed>, k: SessionKey, s: SessionState) {
    match s
    case AwaitingFirstOpen(t) =>
      && (exists i | 0 <= i < |steps| :: BegunAt(steps, i, k) && steps[i].1 == t)
      && (forall i | 0 <= i < |steps| && BegunAt(steps, i, k) :: steps[i].1 <= t)
    case Open(t) =>
      && (exists i | 0 <= i < |steps| :: UsedAt(steps, i, k) && steps[i].1 == t)
      && (forall i | 0 <= i < |steps| && UsedAt(steps, i, k) :: steps[i].1 <= t)
  }

  lemma StepDates(t: Tracker, step: Step, now: Instant, k: SessionKey)
    requires k in Next(t, step, now).sessions
    ensures var s := Next(t, step, now).sessions[k];
            || (k in t.sessions && s == t.sessions[k] && !Begins(step, k) && !Uses(t, step, k))
            || (s == AwaitingFirstOpen(now) && Begins(step, k))
            || (s == Open(now) && Uses(t, step, k))
  {
    hide Normalize, Ended;
  }

  lemma AtSnoc(front: seq<Timed>, last: Timed, k: SessionKey)
    ensures forall i | 0 <= i < |front| :: (front + [last])[i] == front[i]
    ensures forall i: nat :: BegunAt(front + [last], i, k)
                        <==> if i == |front| then Begins(last.0, k) else BegunAt(front, i, k)
    ensures forall i: nat :: UsedAt(front + [last], i, k)
                        <==> if i == |front| then Uses(After(front), last.0, k) else UsedAt(front, i, k)
  {
    hide After, Begins, Uses;
    var all := front + [last];
    assert all[..|front|] == front;
    assert forall i | 0 <= i < |front| :: all[..i] == front[..i] && all[i] == front[i];
  }

  lemma DatedKept(front: seq<Timed>, last: Timed, k: SessionKey, s: SessionState)
    requires Dated(front, k, s) && !Begins(last.0, k) && !Uses(After(front), last.0, k)
    ensures Dated(front + [last], k, s)
  {
    hide After, Begins, Uses, BegunAt, UsedAt;
    AtSnoc(front, last, k);
    match s {
      case AwaitingFirstOpen(t) =>
        var i :| 0 <= i < |front| && BegunAt(front, i, k) && front[i].1 == t;
        assert BegunAt(front + [last], i, k);
      case Open(t) =>
        var i :| 0 <= i < |front| && UsedAt(front, i, k) && front[i].1 == t;
        assert UsedAt(front + [last], i, k);
    }
  }

  lemma DatedNow(front: seq<Timed>, last: Timed, k: SessionKey)
    requires Clocked(front + [last])
    ensures Begins(last.0, k) ==> Dated(front + [last], k, AwaitingFirstOpen(last.1))
    ensures Uses(After(front), last.0, k) ==> Dated(front + [last], k, Open(last.1))
  {
    hide After, Begins, Uses, BegunAt, UsedAt, Clocked;
    AtSnoc(front, last, k);
    BeforeNow(front, last);
    var all := front + [last];
    assert all[|front|] == last;
    assert Begins(last.0, k) ==> BegunAt(all, |front|, k);
    assert Uses(After(front), last.0, k) ==> UsedAt(all, |front|, k);
  }

  lemma ClockedFront(front: seq<Timed>, last: Timed)
    requires Clocked(front + [last])
    ensures Clocked(front)
  {
    assert forall i | 0 <= i < |front| :: (front + [last])[i] == front[i];
  }

  lemma StepIsDated(front: seq<Timed>, last: Timed, k: SessionKey)
    requires Clocked(front + [last]) && k in Next(After(front), last.0, last.1).sessions
    requires k in After(front).sessions ==> Dated(front, k, After(front).sessions[k])
    ensures Dated(front + [last], k, Next(After(front), last.0, last.1).sessions[k])
  {
    hide Next, Begins, Uses, Dated, Clocked, After;
    StepDates(After(front), last.0, last.1, k);
    DatedNow(front, last, k);
    if !Begins(last.0, k) && !Uses(After(front), last.0, k) {
      DatedKept(front, last, k, After(front).sessions[k]);
    }
  }

  lemma NothingYet(k: SessionKey)
    ensures k !in After([]).sessions
  {
  }

  /** In every run of a clock that never goes back. */
  lemma {:induction false} SessionsAreDated(steps: seq<Timed>, k: SessionKey)
    requires Clocked(steps) && k in After(steps).sessions
    ensures Dated(steps, k, After(steps).sessions[k])
  {
    hide Next, Dated, Clocked, After, Begins, Uses, Ends, Normalize;
    if steps == [] {
      NothingYet(k);
    } else {
      var front, last := steps[..|steps| - 1], steps[|steps| - 1];
      assert front + [last] == steps;
      AfterSnoc(front, last);
      ClockedFront(front, last);
      if k in After(front).sessions {
        SessionsAreDated(front, k);
      }
      StepIsDated(front, last, k);
    }
  }

  /**
   The grant does not outlive the use. After an expiry, a session that is still there has a link up, or was used within
   the settle window, or was granted within the awaiting bound, if there is one.
   */
  lemma GrantDoesNotOutliveUse(steps: seq<Timed>, settle: nat, awaiting: nat, now: Instant, k: SessionKey)
    requires Clocked(steps + [(Expire(settle, awaiting), now)])
    requires k in After(steps + [(Expire(settle, awaiting), now)]).sessions
    ensures var t := After(steps);
            || HasActiveLink(t.active, k.0, k.1)
            || (exists i | 0 <= i < |steps| :: UsedAt(steps, i, k) && now - steps[i].1 < settle)
            || (exists i | 0 <= i < |steps| :: BegunAt(steps, i, k) && (awaiting > 0 ==> now - steps[i].1 < awaiting))
  {
    hide Normalize, HasActiveLink, BegunAt, UsedAt, Clocked, After;
    var last := (Expire(settle, awaiting), now);
    AfterSnoc(steps, last);
    ClockedFront(steps, last);
    SessionsAreDated(steps, k);
    BeforeNow(steps, last);
  }

  /** Every beginning lies at least the bound back. */
  ghost predicate BegunLongAgo(steps: seq<Timed>, k: SessionKey, now: Instant, bound: nat) {
    forall i | 0 <= i < |steps| && BegunAt(steps, i, k) :: now - steps[i].1 >= bound
  }

  ghost predicate UsedLongAgo(steps: seq<Timed>, k: SessionKey, now: Instant, bound: nat) {
    forall i | 0 <= i < |steps| && UsedAt(steps, i, k) :: now - steps[i].1 >= bound
  }

  /**
   Nor does it end early. In every run a session that is there ends with a step if and only if it is released, or an
   expiry comes and: it was never opened, there is a bound for that, and every grant of it is older; or it was opened,
   no link of it is up, and its every use lies at least the settle window back.
   */
  lemma EndsIffOver(steps: seq<Timed>, last: Timed, k: SessionKey)
    requires Clocked(steps + [last]) && k in After(steps).sessions
    ensures var (t, step, now) := (After(steps), last.0, last.1);
            k !in After(steps + [last]).sessions
            <==> || (step.Released? && KeyOf(step.app, step.category) == k)
                 || (&& step.Expire?
                     && match t.sessions[k]
                        case AwaitingFirstOpen(_) => step.awaiting > 0 && BegunLongAgo(steps, k, now, step.awaiting)
                        case Open(_) =>
                          !HasActiveLink(t.active, k.0, k.1) && UsedLongAgo(steps, k, now, step.settle))
  {
    hide Normalize, HasActiveLink, BegunAt, UsedAt, Clocked, After;
    AfterSnoc(steps, last);
    StepExistence(After(steps), last.0, last.1, k);
    ClockedFront(steps, last);
    SessionsAreDated(steps, k);
    BeforeNow(steps, last);
  }

  lemma BeforeNow(steps: seq<Timed>, last: Timed)
    requires Clocked(steps + [last])
    ensures forall i | 0 <= i < |steps| :: steps[i].1 <= last.1
  {
    forall i | 0 <= i < |steps| ensures steps[i].1 <= last.1 {
      assert (steps + [last])[i] == steps[i] && (steps + [last])[|steps|] == last;
    }
  }

  // ---------------------------------------------------------------------------
  // One question at a time
  // ---------------------------------------------------------------------------

  function PendingPrompts(steps: seq<PromptStep>): set<SessionKey> {
    if steps == [] then {} else PromptsAfter(PendingPrompts(steps[..|steps| - 1]), steps[|steps| - 1])
  }

  predicate Asks(step: PromptStep, k: SessionKey) {
    step.Claim? && KeyOf(step.app, step.category) == k
  }

  predicate Closes(step: PromptStep, k: SessionKey) {
    step.Answered? && KeyOf(step.app, step.category) == k
  }

  /** The claim at step `i` got the right to ask. */
  predicate Granted(steps: seq<PromptStep>, i: nat, k: SessionKey) {
    i < |steps| && Asks(steps[i], k) && k !in PendingPrompts(steps[..i])
  }

  /** The last step about a key was a claim, granted or not. */
  ghost predicate Unanswered(steps: seq<PromptStep>, k: SessionKey) {
    exists i | 0 <= i < |steps| :: Asks(steps[i], k) && forall j | i < j < |steps| :: !Closes(steps[j], k)
  }

  lemma UnansweredSnoc(front: seq<PromptStep>, last: PromptStep, k: SessionKey)
    ensures Unanswered(front + [last], k) <==> Asks(last, k) || (Unanswered(front, k) && !Closes(last, k))
  {
    hide Asks, Closes;
    var all, n := front + [last], |front|;
    assert all[n] == last;
    assert forall i | 0 <= i < n :: all[i] == front[i];
    if i :| 0 <= i < n && Asks(all[i], k) && forall j | i < j <= n :: !Closes(all[j], k) {
      assert Asks(front[i], k) && forall j | i < j < n :: !Closes(front[j], k);
    }
    if i :| 0 <= i < n && Asks(front[i], k) && !Closes(last, k) && forall j | i < j < n :: !Closes(front[j], k) {
      assert Asks(all[i], k) && forall j | i < j <= n :: !Closes(all[j], k);
    }
  }

  /** A claim is refused exactly while an earlier question about the same application and device has no answer. */
  lemma {:induction false} RefusedIffUnanswered(steps: seq<PromptStep>, k: SessionKey)
    ensures k in PendingPrompts(steps) <==> Unanswered(steps, k)
  {
    hide Normalize;
    if steps != [] {
      hide Unanswered;
      var front, last := steps[..|steps| - 1], steps[|steps| - 1];
      RefusedIffUnanswered(front, k);
      UnansweredSnoc(front, last, k);
      assert front + [last] == steps;
    }
  }

  /** Between two granted claims of one application and device the first question was answered. */
  lemma OneQuestionAtATime(steps: seq<PromptStep>, i: nat, j: nat, k: SessionKey)
    requires i < j && Granted(steps, i, k) && Granted(steps, j, k)
    ensures exists m | i < m < j :: Closes(steps[m], k)
  {
    hide Normalize;
    RefusedIffUnanswered(steps[..j], k);
    assert Asks(steps[..j][i], k);
    assert !forall m | i < m < j :: !Closes(steps[..j][m], k);
  }
}
