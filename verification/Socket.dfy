/**
 The helper's socket server as interleaved steps: the accept thread that also reads, a writer and an event forwarder for
 each connection, and the main loop. Waiting with a time limit is a choice: the wait may always run out.
 */
module Socket {
  import opened Text

  type Id = nat

  /** What the reader made of a line. */
  datatype Line = Blank | Garbled | WrongVersion | Proper

  /** What a client is told: its own request's answer, or why there is none. */
  datatype Answer = FromMain(id: Id) | Malformed | VersionMismatch | NoAnswerInTime | MainStopped

  datatype Msg = Event(ev: nat) | Reply(a: Answer)

  /** A non-blank line as the history remembers it; a proper one with the number of its request. */
  datatype Seen = SawGarbled | SawWrongVersion | Asked(id: Id)

  datatype Writer = Idle | Writing(msg: Msg) | WriterGone

  datatype Forwarder = AwaitingLock | Checking | Listening | Holding(ev: nat) | ForwarderGone

  /** The peer reads, has closed, or neither: its buffer is full and stays full. */
  datatype Peer = Draining | Closed | Stalled

  /**
   One connection. `queue` is the channel into the writer, `stop` the flag, `readerSends` that the reader still holds
   its end. `seen`, `sent`, `got` and `written` are history: the non-blank lines, the replies sent for them, the events
   its forwarder received, what reached the peer. `broken` says the writer gave up on a write.
   */
  datatype Conn = Conn(
    queue: seq<Msg>, writer: Writer, forwarder: Forwarder, stop: bool, readerSends: bool, peer: Peer,
    seen: seq<Seen>, sent: seq<Answer>, got: seq<nat>, written: seq<Msg>, broken: bool)
  {
    /** The writer ends when nobody can send to it any more. */
    predicate Hung() {
      !readerSends && forwarder.ForwarderGone?
    }

    function Send(m: Msg): Conn {
      if writer.WriterGone? then this else this.(queue := queue + [m])
    }

    function Tell(a: Answer): Conn {
      Send(Reply(a)).(sent := sent + [a])
    }
  }

  const NEW_CONN := Conn([], Idle, AwaitingLock, false, true, Draining, [], [], [], [], false)

  datatype Reader = Accepting | Reading | Waiting(id: Id) | Ending | Stopping | JoiningWriter | JoiningForwarder

  /** An event, and the connection whose forwarder received it. */
  datatype Taken = Taken(taker: nat, ev: nat)

  /**
   `conns` holds every connection ever made, the last one current, `holder` the forwarder that holds the event receiver.
   `answers` are the replies the main loop has put into their own channels, `dropped` the channels it closed unanswered.
   `emitted` and `taken` are history: the events sent to the receiver, and those received from it, each by which
   connection's forwarder.
   */
  datatype Server = Server(
    reader: Reader, conns: seq<Conn>, holder: Option<nat>,
    mainAlive: bool, requests: seq<Id>, answers: set<Id>, dropped: set<Id>, events: seq<nat>, nextId: Id,
    emitted: seq<nat>, taken: seq<Taken>)
  {
    function Cur(): Conn
      requires conns != []
    {
      conns[|conns| - 1]
    }
  }

  const START := Server(Accepting, [], None, true, [], {}, {}, [], 0, [], [])

  /** What the accept thread does while it serves a connection and when it shuts it down. */
  datatype ReaderStep =
    | Read(line: Line) | ReadEnd | GotReply | TimedOut | HungUp | SetStop | DropOut | JoinWriter | JoinForwarder

  /** What a connection's writer and forwarder do. */
  datatype ThreadStep = Take | Write | WriteFails | WriterEnds | Lock | Check | Receive | RunOut | Forward

  datatype OutsideStep = MainAnswers | MainExits | Emit(ev: nat) | PeerTurns(c: nat, peer: Peer)

  datatype Step = Accept | Serve(r: ReaderStep) | Pump(c: nat, t: ThreadStep) | Outside(o: OutsideStep)

  predicate ReaderEnabled(s: Server, r: ReaderStep) {
    s.conns != [] &&
    match r
    case Read(_) => s.reader.Reading?
    case ReadEnd => s.reader.Reading?
    case GotReply => s.reader.Waiting? && s.reader.id in s.answers
    case TimedOut => s.reader.Waiting? && s.reader.id !in s.answers
    case HungUp => s.reader.Waiting? && s.reader.id !in s.answers && s.reader.id in s.dropped
    case SetStop => s.reader.Ending?
    case DropOut => s.reader.Stopping?
    case JoinWriter => s.reader.JoiningWriter? && s.Cur().writer.WriterGone?
    case JoinForwarder => s.reader.JoiningForwarder? && s.Cur().forwarder.ForwarderGone?
  }

  predicate ThreadEnabled(s: Server, c: nat, t: ThreadStep) {
    c < |s.conns| &&
    match t
    case Take => s.conns[c].writer.Idle? && s.conns[c].queue != []
    case Write => s.conns[c].writer.Writing? && s.conns[c].peer.Draining?
    case WriteFails => s.conns[c].writer.Writing? && s.conns[c].peer.Closed?
    case WriterEnds => s.conns[c].writer.Idle? && s.conns[c].queue == [] && s.conns[c].Hung()
    case Lock => s.conns[c].forwarder.AwaitingLock? && s.holder.None?
    case Check => s.conns[c].forwarder.Checking?
    case Receive => s.conns[c].forwarder.Listening? && s.events != []
    case RunOut => s.conns[c].forwarder.Listening? && s.events == []
    case Forward => s.conns[c].forwarder.Holding?
  }

  predicate OutsideEnabled(s: Server, o: OutsideStep) {
    match o
    case MainAnswers => s.mainAlive && s.requests != []
    case MainExits => s.mainAlive
    case Emit(_) => s.mainAlive
    case PeerTurns(c, _) => c < |s.conns|
  }

  predicate Enabled(s: Server, step: Step) {
    match step
    case Accept => s.reader.Accepting?
    case Serve(r) => ReaderEnabled(s, r)
    case Pump(c, t) => ThreadEnabled(s, c, t)
    case Outside(o) => OutsideEnabled(s, o)
  }

  function ReaderAfter(s: Server, r: ReaderStep): Reader
    requires ReaderEnabled(s, r)
  {
    match r
    case Read(line) =>
      if line.WrongVersion? || (line.Proper? && !s.mainAlive) then Ending
      else if line.Proper? then Waiting(s.nextId) else Reading
    case ReadEnd => Ending
    case GotReply => if s.Cur().writer.WriterGone? then Ending else Reading
    case TimedOut => Reading
    case HungUp => Ending
    case SetStop => Stopping
    case DropOut => JoiningWriter
    case JoinWriter => JoiningForwarder
    case JoinForwarder => Accepting
  }

  /** What the reader's step does to its connection. */
  function Served(s: Server, r: ReaderStep): Conn
    requires ReaderEnabled(s, r)
  {
    var conn := s.Cur();
    match r
    case Read(line) =>
      (match line
       case Blank => conn
       case Garbled => conn.(seen := conn.seen + [SawGarbled]).Tell(Malformed)
       case WrongVersion => conn.(seen := conn.seen + [SawWrongVersion]).Tell(VersionMismatch)
       case Proper => conn.(seen := conn.seen + [Asked(s.nextId)]))
    case ReadEnd => conn
    case GotReply => conn.Tell(FromMain(s.reader.id))
    case TimedOut => conn.Tell(NoAnswerInTime)
    case HungUp => conn.Tell(MainStopped)
    case SetStop => conn.(stop := true)
    case DropOut => conn.(readerSends := false)
    case JoinWriter => conn
    case JoinForwarder => conn
  }

  /** A proper line goes to the main loop, if there is one. */
  predicate Submits(s: Server, r: ReaderStep) {
    r.Read? && r.line.Proper?
  }

  /** What a thread's step does to its connection. */
  function Pumped(s: Server, c: nat, t: ThreadStep): Conn
    requires ThreadEnabled(s, c, t)
  {
    var conn := s.conns[c];
    match t
    case Take => conn.(queue := conn.queue[1..], writer := Writing(conn.queue[0]))
    case Write => conn.(written := conn.written + [conn.writer.msg], writer := Idle)
    case WriteFails => conn.(writer := WriterGone, broken := true)
    case WriterEnds => conn.(writer := WriterGone)
    case Lock => conn.(forwarder := Checking)
    case Check => conn.(forwarder := if conn.stop then ForwarderGone else Listening)
    case Receive => conn.(forwarder := Holding(s.events[0]), got := conn.got + [s.events[0]])
    case RunOut =>
      // With the sender gone the wait ends for good; otherwise it has only run out.
      conn.(forwarder := if s.mainAlive then Checking else ForwarderGone)
    case Forward =>
      if conn.writer.WriterGone? then conn.(forwarder := ForwarderGone)
      else conn.Send(Event(conn.forwarder.ev)).(forwarder := Checking)
  }

  /** The lock is taken once and released when the forwarder ends. */
  function HolderAfter(s: Server, c: nat, t: ThreadStep): Option<nat>
    requires ThreadEnabled(s, c, t)
  {
    if t.Lock? then Some(c)
    else if Pumped(s, c, t).forwarder.ForwarderGone? && !s.conns[c].forwarder.ForwarderGone? then None
    else s.holder
  }

  function OutsideNext(s: Server, o: OutsideStep): Server
    requires OutsideEnabled(s, o)
  {
    match o
    case MainAnswers => s.(requests := s.requests[1..], answers := s.answers + {s.requests[0]})
    case MainExits => s.(mainAlive := false, requests := [], dropped := s.dropped + set r | r in s.requests)
    case Emit(ev) => s.(events := s.events + [ev], emitted := s.emitted + [ev])
    case PeerTurns(c, peer) => s.(conns := s.conns[c := s.conns[c].(peer := peer)])
  }

  function Next(s: Server, step: Step): Server
    requires Enabled(s, step)
  {
    match step
    case Accept => s.(reader := Reading, conns := s.conns + [NEW_CONN])
    case Serve(r) =>
      s.(reader := ReaderAfter(s, r), conns := s.conns[|s.conns| - 1 := Served(s, r)],
         requests := if Submits(s, r) && s.mainAlive then s.requests + [s.nextId] else s.requests,
         nextId := if Submits(s, r) then s.nextId + 1 else s.nextId)
    case Pump(c, t) =>
      s.(conns := s.conns[c := Pumped(s, c, t)], holder := HolderAfter(s, c, t),
         events := if t.Receive? then s.events[1..] else s.events,
         taken := if t.Receive? then s.taken + [Taken(c, s.events[0])] else s.taken)
    case Outside(o) => OutsideNext(s, o)
  }

  // ---------------------------------------------------------------------------
  // One connection at a time
  // ---------------------------------------------------------------------------

  /** Both threads have ended, and nobody can send to the writer. */
  predicate Over(conn: Conn) {
    conn.writer.WriterGone? && conn.Hung()
  }

  /** How far the shutdown of the current connection has come. */
  predicate Phase(reader: Reader, conn: Conn) {
    match reader
    case Accepting => Over(conn)
    case Reading => !conn.stop && conn.readerSends
    case Waiting(_) => !conn.stop && conn.readerSends
    case Ending => !conn.stop && conn.readerSends
    case Stopping => conn.stop && conn.readerSends
    case JoiningWriter => conn.stop && !conn.readerSends
    case JoiningForwarder => conn.stop && !conn.readerSends && conn.writer.WriterGone?
  }

  /** Every connection but the current one is over, and the current one is where the reader says it is. */
  ghost predicate Phases(s: Server) {
    && (s.conns == [] ==> s.reader.Accepting?)
    && (s.conns != [] ==> Phase(s.reader, s.Cur()))
    && (forall c | 0 <= c < |s.conns| - 1 :: Over(s.conns[c]))
  }

  /** A thread's step keeps what the shutdown relies on, and an ended connection has no steps. */
  lemma PumpedKeepsPhase(s: Server, c: nat, t: ThreadStep)
    requires ThreadEnabled(s, c, t)
    ensures c < |s.conns| && !Over(s.conns[c])
    ensures var n := Pumped(s, c, t);
            && n.stop == s.conns[c].stop && n.readerSends == s.conns[c].readerSends
            && (s.conns[c].writer.WriterGone? ==> n.writer.WriterGone?)
            && n.peer == s.conns[c].peer && n.seen == s.conns[c].seen && n.sent == s.conns[c].sent
  {
  }

  lemma StepKeepsPhases(s: Server, step: Step)
    requires Enabled(s, step) && Phases(s)
    ensures Phases(Next(s, step))
  {
    match step {
      case Accept =>
      case Serve(r) =>
        ServedKeepsPhase(s, r);
      case Pump(c, t) =>
        hide Pumped, ThreadEnabled;
        PumpedKeepsPhase(s, c, t);
      case Outside(o) =>
    }
  }

  lemma ServedKeepsPhase(s: Server, r: ReaderStep)
    requires ReaderEnabled(s, r) && Phase(s.reader, s.Cur())
    ensures Phase(ReaderAfter(s, r), Served(s, r))
  {
  }

  // ---------------------------------------------------------------------------
  // The event receiver
  // ---------------------------------------------------------------------------

  /** The forwarder is between taking the lock and ending. */
  predicate Holds(f: Forwarder) {
    f.Checking? || f.Listening? || f.Holding?
  }

  /** The lock is held by exactly the forwarder that is listening, if any. */
  ghost predicate LockKept(s: Server) {
    forall c | 0 <= c < |s.conns| :: Holds(s.conns[c].forwarder) <==> s.holder == Some(c)
  }

  ghost predicate HolderExists(s: Server) {
    s.holder.Some? ==> s.holder.value < |s.conns|
  }

  lemma PumpedKeepsLock(s: Server, c: nat, t: ThreadStep)
    requires ThreadEnabled(s, c, t) && LockKept(s) && HolderExists(s)
    ensures c < |s.conns| && (Holds(Pumped(s, c, t).forwarder) <==> HolderAfter(s, c, t) == Some(c))
    ensures forall d | 0 <= d < |s.conns| && d != c :: HolderAfter(s, c, t) == Some(d) <==> s.holder == Some(d)
    ensures HolderAfter(s, c, t).Some? ==> HolderAfter(s, c, t).value < |s.conns|
  {
  }

  lemma ServedKeepsForwarder(s: Server, r: ReaderStep)
    requires ReaderEnabled(s, r)
    ensures s.conns != [] && Served(s, r).forwarder == s.Cur().forwarder && Served(s, r).writer == s.Cur().writer
    ensures Served(s, r).broken == s.Cur().broken && Served(s, r).written == s.Cur().written
    ensures Served(s, r).peer == s.Cur().peer
  {
  }

  lemma StepKeepsLock(s: Server, step: Step)
    requires Enabled(s, step) && LockKept(s) && HolderExists(s)
    ensures LockKept(Next(s, step)) && HolderExists(Next(s, step))
  {
    hide Served, Pumped, HolderAfter, ThreadEnabled, ReaderEnabled;
    match step {
      case Accept =>
      case Serve(r) => ServedKeepsForwarder(s, r);
      case Pump(c, t) => PumpedKeepsLock(s, c, t);
      case Outside(o) =>
    }
  }

  // ---------------------------------------------------------------------------
  // Lines and replies
  // ---------------------------------------------------------------------------

  /** A reply that answers this line: its own request's answer, or the reason it has none. */
  predicate Answers(seen: Seen, a: Answer) {
    match seen
    case SawGarbled => a == Malformed
    case SawWrongVersion => a == VersionMismatch
    case Asked(id) => a == FromMain(id) || a == NoAnswerInTime || a == MainStopped
  }

  /** The replies sent answer the lines seen, one for one and in order. */
  ghost predicate Paired(conn: Conn) {
    |conn.sent| <= |conn.seen| && forall i | 0 <= i < |conn.sent| :: Answers(conn.seen[i], conn.sent[i])
  }

  /** The last line is a request that has no reply yet. */
  predicate OneShort(conn: Conn) {
    |conn.seen| == |conn.sent| + 1 && conn.seen[|conn.seen| - 1].Asked?
  }

  /** Only the request being waited for is unanswered; without a main loop the last one may stay so. */
  ghost predicate Conversation(s: Server, conn: Conn, current: bool) {
    && Paired(conn)
    && (if current && s.reader.Waiting? then OneShort(conn) && conn.seen[|conn.seen| - 1] == Asked(s.reader.id)
        else |conn.seen| == |conn.sent| || (OneShort(conn) && !s.mainAlive && !(current && s.reader.Reading?)))
  }

  ghost predicate Conversations(s: Server) {
    forall c | 0 <= c < |s.conns| :: Conversation(s, s.conns[c], c == |s.conns| - 1)
  }

  lemma TellPairs(conn: Conn, a: Answer)
    requires Paired(conn) && |conn.sent| < |conn.seen| && Answers(conn.seen[|conn.sent|], a)
    ensures Paired(conn.Tell(a)) && conn.Tell(a).seen == conn.seen && |conn.Tell(a).sent| == |conn.sent| + 1
  {
  }

  lemma SeePairs(conn: Conn, line: Seen)
    requires Paired(conn)
    ensures Paired(conn.(seen := conn.seen + [line]))
  {
  }

  lemma ServedConverses(s: Server, r: ReaderStep)
    requires ReaderEnabled(s, r) && Phase(s.reader, s.Cur()) && Conversation(s, s.Cur(), true)
    ensures Conversation(Next(s, Serve(r)), Served(s, r), true)
  {
    hide Paired;
    var conn := s.Cur();
    match r {
      case Read(line) =>
        match line {
          case Blank =>
          case Garbled =>
            SeePairs(conn, SawGarbled);
            TellPairs(conn.(seen := conn.seen + [SawGarbled]), Malformed);
          case WrongVersion =>
            SeePairs(conn, SawWrongVersion);
            TellPairs(conn.(seen := conn.seen + [SawWrongVersion]), VersionMismatch);
          case Proper => SeePairs(conn, Asked(s.nextId));
        }
      case GotReply => TellPairs(conn, FromMain(s.reader.id));
      case TimedOut => TellPairs(conn, NoAnswerInTime);
      case HungUp => TellPairs(conn, MainStopped);
      case ReadEnd =>
      case SetStop => SameTalk(conn, Served(s, r));
      case DropOut => SameTalk(conn, Served(s, r));
      case JoinWriter =>
      case JoinForwarder =>
    }
  }

  lemma SameTalk(a: Conn, b: Conn)
    requires a.seen == b.seen && a.sent == b.sent
    ensures Paired(a) <==> Paired(b)
  {
  }

  lemma StepKeepsConversations(s: Server, step: Step)
    requires Enabled(s, step) && Phases(s) && Conversations(s)
    ensures Conversations(Next(s, step))
  {
    hide Served, Pumped, HolderAfter, ThreadEnabled, Paired, ReaderAfter;
    var n := Next(s, step);
    forall c | 0 <= c < |n.conns| ensures Conversation(n, n.conns[c], c == |n.conns| - 1) {
      match step {
        case Accept =>
          if c == |n.conns| - 1 {
            assert Paired(NEW_CONN) by { NewIsPaired(); }
          }
        case Serve(r) =>
          if c == |n.conns| - 1 {
            ServedConverses(s, r);
          }
        case Pump(d, t) =>
          PumpedKeepsPhase(s, d, t);
          SameTalk(s.conns[d], Pumped(s, d, t));
        case Outside(o) =>
          if o.PeerTurns? {
            SameTalk(s.conns[o.c], n.conns[o.c]);
          }
      }
    }
  }

  lemma NewIsPaired()
    ensures Paired(NEW_CONN)
  {
  }

  // ---------------------------------------------------------------------------
  // Delivery
  // ---------------------------------------------------------------------------

  /** The replies among the messages, in order. */
  function Replies(msgs: seq<Msg>): seq<Answer> {
    if msgs == [] then []
    else
      var front, m := Replies(msgs[..|msgs| - 1]), msgs[|msgs| - 1];
      if m.Reply? then front + [m.a] else front
  }

  function InHand(w: Writer): seq<Msg> {
    if w.Writing? then [w.msg] else []
  }

  lemma RepliesSnoc(msgs: seq<Msg>, m: Msg)
    ensures Replies(msgs + [m]) == Replies(msgs) + if m.Reply? then [m.a] else []
  {
    assert (msgs + [m])[..|msgs|] == msgs;
  }

  /** What was written, what the writer holds and what waits in the queue, in that order. */
  function Stream(conn: Conn): seq<Msg> {
    conn.written + InHand(conn.writer) + conn.queue
  }

  /** Unless a write failed, every reply sent is written or on its way, in order; and the writer ends only when done. */
  ghost predicate Delivered(conn: Conn) {
    !conn.broken ==>
      && Replies(Stream(conn)) == conn.sent
      && (conn.writer.WriterGone? ==> conn.queue == [] && conn.Hung())
  }

  lemma TellDelivers(conn: Conn, a: Answer)
    requires Delivered(conn) && conn.readerSends
    ensures Delivered(conn.Tell(a))
  {
    hide Replies;
    if !conn.broken {
      assert Stream(conn.Tell(a)) == Stream(conn) + [Reply(a)];
      RepliesSnoc(Stream(conn), Reply(a));
    }
  }

  lemma ServedDelivers(s: Server, r: ReaderStep)
    requires ReaderEnabled(s, r) && Phase(s.reader, s.Cur()) && Delivered(s.Cur())
    ensures Delivered(Served(s, r))
  {
    hide Replies;
    var conn := s.Cur();
    match r {
      case Read(line) =>
        match line {
          case Blank =>
          case Garbled => TellDelivers(conn.(seen := conn.seen + [SawGarbled]), Malformed);
          case WrongVersion => TellDelivers(conn.(seen := conn.seen + [SawWrongVersion]), VersionMismatch);
          case Proper =>
        }
      case GotReply => TellDelivers(conn, FromMain(s.reader.id));
      case TimedOut => TellDelivers(conn, NoAnswerInTime);
      case HungUp => TellDelivers(conn, MainStopped);
      case _ =>
    }
  }

  lemma PumpedDelivers(s: Server, c: nat, t: ThreadStep)
    requires ThreadEnabled(s, c, t) && Delivered(s.conns[c])
    ensures Delivered(Pumped(s, c, t))
  {
    hide Replies;
    var conn, n := s.conns[c], Pumped(s, c, t);
    match t {
      case Take =>
        assert conn.queue == [conn.queue[0]] + conn.queue[1..];
        assert Stream(n) == Stream(conn);
      case Write => assert Stream(n) == Stream(conn);
      case Forward =>
        if !conn.writer.WriterGone? {
          assert Stream(n) == Stream(conn) + [Event(conn.forwarder.ev)];
          RepliesSnoc(Stream(conn), Event(conn.forwarder.ev));
        }
      case _ =>
    }
  }

  ghost predicate AllDelivered(s: Server) {
    forall c | 0 <= c < |s.conns| :: Delivered(s.conns[c])
  }

  lemma StepKeepsDelivered(s: Server, step: Step)
    requires Enabled(s, step) && Phases(s) && AllDelivered(s)
    ensures AllDelivered(Next(s, step))
  {
    hide Served, Pumped, HolderAfter, ReaderAfter, Delivered;
    match step {
      case Accept => NewIsDelivered();
      case Serve(r) => ServedDelivers(s, r);
      case Pump(c, t) => PumpedDelivers(s, c, t);
      case Outside(o) =>
        if o.PeerTurns? {
          PeerDelivers(s.conns[o.c], o.peer);
        }
    }
  }

  lemma PeerDelivers(conn: Conn, peer: Peer)
    requires Delivered(conn)
    ensures Delivered(conn.(peer := peer))
  {
  }

  lemma NewIsDelivered()
    ensures Delivered(NEW_CONN)
  {
  }

  /** The events among the messages, in order. */
  function Events(msgs: seq<Msg>): seq<nat> {
    if msgs == [] then []
    else
      var front, m := Events(msgs[..|msgs| - 1]), msgs[|msgs| - 1];
      if m.Event? then front + [m.ev] else front
  }

  lemma EventsSnoc(msgs: seq<Msg>, m: Msg)
    ensures Events(msgs + [m]) == Events(msgs) + if m.Event? then [m.ev] else []
  {
    assert (msgs + [m])[..|msgs|] == msgs;
  }

  /** The event the forwarder has received and not passed on yet. */
  function InForwarder(f: Forwarder): seq<nat> {
    if f.Holding? then [f.ev] else []
  }

  /**
   Unless a write failed, every event received is written, on its way to the writer or still with the forwarder, in
   order.
   */
  ghost predicate Forwarded(conn: Conn) {
    !conn.broken ==> Events(Stream(conn)) + InForwarder(conn.forwarder) == conn.got
  }

  lemma TellForwards(conn: Conn, a: Answer)
    requires Forwarded(conn)
    ensures Forwarded(conn.Tell(a))
  {
    hide Events;
    if !conn.broken && !conn.writer.WriterGone? {
      assert Stream(conn.Tell(a)) == Stream(conn) + [Reply(a)];
      EventsSnoc(Stream(conn), Reply(a));
    }
  }

  lemma ServedForwards(s: Server, r: ReaderStep)
    requires ReaderEnabled(s, r) && Forwarded(s.Cur())
    ensures Forwarded(Served(s, r))
  {
    hide Events;
    var conn := s.Cur();
    match r {
      case Read(line) =>
        match line {
          case Garbled => TellForwards(conn.(seen := conn.seen + [SawGarbled]), Malformed);
          case WrongVersion => TellForwards(conn.(seen := conn.seen + [SawWrongVersion]), VersionMismatch);
          case _ =>
        }
      case GotReply => TellForwards(conn, FromMain(s.reader.id));
      case TimedOut => TellForwards(conn, NoAnswerInTime);
      case HungUp => TellForwards(conn, MainStopped);
      case _ =>
    }
  }

  /** A step of the writer moves a message along, or ends it; a step of the forwarder receives one or passes it on. */
  lemma PumpedForwards(s: Server, c: nat, t: ThreadStep)
    requires ThreadEnabled(s, c, t) && Forwarded(s.conns[c]) && Delivered(s.conns[c])
    ensures Forwarded(Pumped(s, c, t))
  {
    hide Events, Replies;
    var conn, n := s.conns[c], Pumped(s, c, t);
    match t {
      case Take =>
        assert conn.queue == [conn.queue[0]] + conn.queue[1..];
        assert Stream(n) == Stream(conn);
      case Write => assert Stream(n) == Stream(conn);
      case Receive => assert Stream(n) == Stream(conn);
      case Forward =>
        if !conn.writer.WriterGone? {
          assert Stream(n) == Stream(conn) + [Event(conn.forwarder.ev)];
          EventsSnoc(Stream(conn), Event(conn.forwarder.ev));
        }
      case _ =>
    }
  }

  ghost predicate AllForwarded(s: Server) {
    forall c | 0 <= c < |s.conns| :: Forwarded(s.conns[c])
  }

  lemma StepKeepsForwarded(s: Server, step: Step)
    requires Enabled(s, step) && AllDelivered(s) && AllForwarded(s)
    ensures AllForwarded(Next(s, step))
  {
    hide Served, Pumped, HolderAfter, ReaderAfter, Delivered, Forwarded;
    match step {
      case Accept => NewIsForwarded();
      case Serve(r) => ServedForwards(s, r);
      case Pump(c, t) => PumpedForwards(s, c, t);
      case Outside(o) =>
        if o.PeerTurns? {
          PeerForwards(s.conns[o.c], o.peer);
        }
    }
  }

  lemma PeerForwards(conn: Conn, peer: Peer)
    requires Forwarded(conn)
    ensures Forwarded(conn.(peer := peer))
  {
  }

  lemma NewIsForwarded()
    ensures Forwarded(NEW_CONN)
  {
  }

  lemma {:induction false} FiltersOfPrefix(a: seq<Msg>, b: seq<Msg>)
    ensures Replies(a) <= Replies(a + b) && Events(a) <= Events(a + b)
  {
    if b == [] {
      assert a + b == a;
    } else {
      var front, m := b[..|b| - 1], b[|b| - 1];
      FiltersOfPrefix(a, front);
      assert (a + front) + [m] == a + b;
      RepliesSnoc(a + front, m);
      EventsSnoc(a + front, m);
    }
  }

  /** A write that failed is the writer's last, and what it had written by then came in order, with nothing left out. */
  ghost predicate CutShort(conn: Conn) {
    conn.broken ==> conn.writer.WriterGone? && Replies(conn.written) <= conn.sent && Events(conn.written) <= conn.got
  }

  lemma ServedCutsShort(s: Server, r: ReaderStep)
    requires ReaderEnabled(s, r) && CutShort(s.Cur())
    ensures CutShort(Served(s, r))
  {
    hide Replies, Events;
  }

  lemma PumpedCutsShort(s: Server, c: nat, t: ThreadStep)
    requires ThreadEnabled(s, c, t) && CutShort(s.conns[c]) && Delivered(s.conns[c]) && Forwarded(s.conns[c])
    ensures CutShort(Pumped(s, c, t))
  {
    hide Replies, Events;
    var conn := s.conns[c];
    if t.WriteFails? {
      FiltersOfPrefix(conn.written, InHand(conn.writer) + conn.queue);
      assert Stream(conn) == conn.written + (InHand(conn.writer) + conn.queue);
    }
  }

  ghost predicate AllCutShort(s: Server) {
    forall c | 0 <= c < |s.conns| :: CutShort(s.conns[c])
  }

  lemma StepKeepsCutShort(s: Server, step: Step)
    requires Enabled(s, step) && AllDelivered(s) && AllForwarded(s) && AllCutShort(s)
    ensures AllCutShort(Next(s, step))
  {
    hide Served, Pumped, HolderAfter, ReaderAfter, Delivered, Forwarded, CutShort;
    match step {
      case Accept => NewIsCutShort();
      case Serve(r) => ServedCutsShort(s, r);
      case Pump(c, t) => PumpedCutsShort(s, c, t);
      case Outside(o) =>
        if o.PeerTurns? {
          PeerCutsShort(s.conns[o.c], o.peer);
        }
    }
  }

  lemma PeerCutsShort(conn: Conn, peer: Peer)
    requires CutShort(conn)
    ensures CutShort(conn.(peer := peer))
  {
  }

  lemma NewIsCutShort()
    ensures CutShort(NEW_CONN)
  {
  }

  /** The events taken, whoever took them, in order. */
  function EventsOf(taken: seq<Taken>): seq<nat> {
    seq(|taken|, i requires 0 <= i < |taken| => taken[i].ev)
  }

  /** The events one connection's forwarder took, in order. */
  function TakenBy(taken: seq<Taken>, c: nat): seq<nat> {
    if taken == [] then []
    else
      var front, last := TakenBy(taken[..|taken| - 1], c), taken[|taken| - 1];
      if last.taker == c then front + [last.ev] else front
  }

  lemma TakenBySnoc(taken: seq<Taken>, t: Taken, c: nat)
    ensures TakenBy(taken + [t], c) == if t.taker == c then TakenBy(taken, c) + [t.ev] else TakenBy(taken, c)
  {
    assert (taken + [t])[..|taken|] == taken;
  }

  /**
   Every event emitted was received once, by one forwarder, or is still queued; and each forwarder's history is what it
   took.
   */
  ghost predicate Dealt(s: Server) {
    && s.emitted == EventsOf(s.taken) + s.events
    && (forall i | 0 <= i < |s.taken| :: s.taken[i].taker < |s.conns|)
    && (forall c | 0 <= c < |s.conns| :: s.conns[c].got == TakenBy(s.taken, c))
  }

  lemma PumpedGets(s: Server, c: nat, t: ThreadStep)
    requires ThreadEnabled(s, c, t)
    ensures c < |s.conns| && (t.Receive? ==> s.events != [])
    ensures Pumped(s, c, t).got == if t.Receive? then s.conns[c].got + [s.events[0]] else s.conns[c].got
  {
  }

  lemma ServedGets(s: Server, r: ReaderStep)
    requires ReaderEnabled(s, r)
    ensures s.conns != [] && Served(s, r).got == s.Cur().got
  {
  }

  lemma NobodyTook(taken: seq<Taken>, c: nat)
    requires forall i | 0 <= i < |taken| :: taken[i].taker < c
    ensures TakenBy(taken, c) == []
  {
  }

  lemma StepKeepsDealt(s: Server, step: Step)
    requires Enabled(s, step) && Dealt(s)
    ensures Dealt(Next(s, step))
  {
    hide Served, Pumped, HolderAfter, ReaderAfter, ThreadEnabled, ReaderEnabled, TakenBy;
    var n := Next(s, step);
    match step {
      case Accept => NobodyTook(s.taken, |s.conns|);
      case Serve(r) => ServedGets(s, r);
      case Pump(c, t) =>
        PumpedGets(s, c, t);
        if t.Receive? {
          forall d ensures TakenBy(n.taken, d)
                        == if c == d then TakenBy(s.taken, d) + [s.events[0]] else TakenBy(s.taken, d) {
            TakenBySnoc(s.taken, Taken(c, s.events[0]), d);
          }
          assert EventsOf(n.taken) == EventsOf(s.taken) + [s.events[0]];
          assert s.events == [s.events[0]] + s.events[1..];
        }
      case Outside(o) =>
    }
  }

  /** An answer from the main loop was given by the main loop. */
  ghost predicate AnswersGiven(s: Server) {
    forall c, id | 0 <= c < |s.conns| && FromMain(id) in s.conns[c].sent :: id in s.answers
  }

  lemma ServedGivesAnswers(s: Server, r: ReaderStep)
    requires ReaderEnabled(s, r)
    ensures forall id :: FromMain(id) in Served(s, r).sent ==> FromMain(id) in s.Cur().sent || id in s.answers
  {
  }

  lemma StepKeepsAnswersGiven(s: Server, step: Step)
    requires Enabled(s, step) && AnswersGiven(s)
    ensures AnswersGiven(Next(s, step))
  {
    hide Served, Pumped, HolderAfter, ReaderAfter, ThreadEnabled, ReaderEnabled;
    match step {
      case Accept =>
      case Serve(r) =>
        ServedKeepsForwarder(s, r);
        ServedGivesAnswers(s, r);
      case Pump(c, t) => PumpedKeepsPhase(s, c, t);
      case Outside(o) =>
    }
  }

  // ---------------------------------------------------------------------------
  // Runs
  // ---------------------------------------------------------------------------

  ghost predicate Good(s: Server) {
    && Phases(s) && LockKept(s) && HolderExists(s)
    && Conversations(s) && AllDelivered(s) && AnswersGiven(s) && AllForwarded(s) && AllCutShort(s)
    && Dealt(s)
  }

  lemma StepKeepsGood(s: Server, step: Step)
    requires Enabled(s, step) && Good(s)
    ensures Good(Next(s, step))
  {
    hide Enabled, Next, Phases, LockKept, HolderExists, Conversations, AllDelivered, AnswersGiven, AllForwarded;
    hide AllCutShort, Dealt;
    StepKeepsPhases(s, step);
    StepKeepsLock(s, step);
    StepKeepsConversations(s, step);
    StepKeepsDelivered(s, step);
    StepKeepsAnswersGiven(s, step);
    StepKeepsForwarded(s, step);
    StepKeepsCutShort(s, step);
    StepKeepsDealt(s, step);
  }

  ghost predicate IsRun(ss: seq<Server>, steps: seq<Step>) {
    && |ss| == |steps| + 1
    && forall i | 0 <= i < |steps| :: Enabled(ss[i], steps[i]) && ss[i + 1] == Next(ss[i], steps[i])
  }

  /** Every interleaving of the threads keeps the invariants. */
  lemma {:induction false} RunIsGood(ss: seq<Server>, steps: seq<Step>, i: nat)
    requires IsRun(ss, steps) && Good(ss[0]) && i < |ss|
    ensures Good(ss[i])
  {
    hide Enabled, Next, Good;
    if i > 0 {
      RunIsGood(ss, steps, i - 1);
      StepKeepsGood(ss[i - 1], steps[i - 1]);
    }
  }

  lemma StartIsGood()
    ensures Good(START)
  {
  }

  /** At most one forwarder ever holds the event receiver. */
  lemma OneForwarder(ss: seq<Server>, steps: seq<Step>, i: nat, c: nat, d: nat)
    requires IsRun(ss, steps) && ss[0] == START && i < |ss| && c < |ss[i].conns| && d < |ss[i].conns|
    requires Holds(ss[i].conns[c].forwarder) && Holds(ss[i].conns[d].forwarder)
    ensures c == d
  {
    hide IsRun;
    StartIsGood();
    RunIsGood(ss, steps, i);
  }

  /**
   When the accept loop is back from a connection, each non-blank line it read has one reply, in order, and that reply
   is the line's own; unless a write failed, exactly those replies, in that order, were written to the peer. Only with
   the main loop gone may the last request have none.
   */
  lemma EveryLineGotItsReply(ss: seq<Server>, steps: seq<Step>, i: nat, c: nat)
    requires IsRun(ss, steps) && ss[0] == START && i < |ss| && c < |ss[i].conns|
    requires ss[i].reader.Accepting? || c < |ss[i].conns| - 1
    ensures var conn := ss[i].conns[c];
            && (forall k | 0 <= k < |conn.sent| && k < |conn.seen| :: Answers(conn.seen[k], conn.sent[k]))
            && (|conn.sent| == |conn.seen| || (OneShort(conn) && !ss[i].mainAlive))
            && (forall id | FromMain(id) in conn.sent :: id in ss[i].answers)
            && (!conn.broken ==> Replies(conn.written) == conn.sent)
  {
    hide IsRun, Replies;
    StartIsGood();
    RunIsGood(ss, steps, i);
    var s, conn := ss[i], ss[i].conns[c];
    assert Delivered(conn) && Conversation(s, conn, c == |s.conns| - 1) && Over(conn);
    assert Stream(conn) == conn.written + [] + conn.queue;
    assert conn.queue == [] ==> Stream(conn) == conn.written;
  }

  /**
   No event is swallowed. At every moment of every run each event emitted was received by one forwarder, once and in
   order, or is still queued; and unless a write to its peer failed, what a connection's forwarder received is written,
   on its way to the writer or still in its hands, in order.
   */
  lemma EveryEventIsForwarded(ss: seq<Server>, steps: seq<Step>, i: nat, c: nat)
    requires IsRun(ss, steps) && ss[0] == START && i < |ss| && c < |ss[i].conns|
    ensures ss[i].emitted == EventsOf(ss[i].taken) + ss[i].events
    ensures forall k | 0 <= k < |ss[i].taken| :: ss[i].taken[k].taker < |ss[i].conns|
    ensures var conn := ss[i].conns[c];
            !conn.broken ==>
              Events(conn.written + InHand(conn.writer) + conn.queue) + InForwarder(conn.forwarder)
              == TakenBy(ss[i].taken, c)
  {
    hide IsRun, Events;
    StartIsGood();
    RunIsGood(ss, steps, i);
    assert Forwarded(ss[i].conns[c]);
  }

  /** When a connection is over and no write failed, its peer was written exactly the events its forwarder received. */
  lemma EveryEventReachedItsPeer(ss: seq<Server>, steps: seq<Step>, i: nat, c: nat)
    requires IsRun(ss, steps) && ss[0] == START && i < |ss| && c < |ss[i].conns|
    requires (ss[i].reader.Accepting? || c < |ss[i].conns| - 1) && !ss[i].conns[c].broken
    ensures Events(ss[i].conns[c].written) == TakenBy(ss[i].taken, c)
  {
    hide IsRun, Events, Replies;
    StartIsGood();
    RunIsGood(ss, steps, i);
    var conn := ss[i].conns[c];
    assert Delivered(conn) && Forwarded(conn) && Over(conn);
    assert Stream(conn) == conn.written;
    assert Events(conn.written) + [] == Events(conn.written);
  }

  /** Whatever happens to a connection, its peer is written its replies and its events in order, none left out. */
  lemma PeersGetPrefixes(ss: seq<Server>, steps: seq<Step>, i: nat, c: nat)
    requires IsRun(ss, steps) && ss[0] == START && i < |ss| && c < |ss[i].conns|
    ensures Replies(ss[i].conns[c].written) <= ss[i].conns[c].sent
    ensures Events(ss[i].conns[c].written) <= TakenBy(ss[i].taken, c)
  {
    hide IsRun, Events, Replies;
    StartIsGood();
    RunIsGood(ss, steps, i);
    var conn := ss[i].conns[c];
    assert CutShort(conn) && Delivered(conn) && Forwarded(conn);
    FiltersOfPrefix(conn.written, InHand(conn.writer) + conn.queue);
    assert Stream(conn) == conn.written + (InHand(conn.writer) + conn.queue);
  }

  // ---------------------------------------------------------------------------
  // When a connection ends
  // ---------------------------------------------------------------------------

  /** The reader gives its connection up with this step. */
  predicate GivesUp(s: Server, r: ReaderStep)
    requires ReaderEnabled(s, r)
  {
    (s.reader.Reading? || s.reader.Waiting?) && ReaderAfter(s, r).Ending?
  }

  /**
   A connection is given up if and only if the input ends, a client of another version says hello, a request finds no
   main loop or is dropped by it, or the writer is gone when a reply has come. Everything else, blank and garbled lines
   and answers that come late or never, leaves it open.
   */
  lemma GivesUpIff(s: Server, r: ReaderStep)
    requires ReaderEnabled(s, r)
    ensures GivesUp(s, r)
       <==> || r.ReadEnd? || r.HungUp? || (r.Read? && r.line.WrongVersion?)
            || (r.Read? && r.line.Proper? && !s.mainAlive) || (r.GotReply? && s.Cur().writer.WriterGone?)
    ensures s.reader.Reading? && r.Read? && r.line.Proper? && s.mainAlive ==> ReaderAfter(s, r) == Waiting(s.nextId)
    ensures (s.reader.Reading? || s.reader.Waiting?) && !GivesUp(s, r) && !(r.Read? && r.line.Proper?) ==>
              ReaderAfter(s, r) == Reading
  {
  }

  /** Waiting for an answer never hangs, and an answer that has come is the one that is told. */
  lemma WaitingGoesOn(s: Server)
    requires s.conns != [] && s.reader.Waiting?
    ensures exists r :: ReaderEnabled(s, r)
    ensures forall r | ReaderEnabled(s, r) && s.reader.id in s.answers ::
              r == GotReply && Served(s, r).sent == s.Cur().sent + [FromMain(s.reader.id)]
    ensures ReaderEnabled(s, TimedOut) <==> s.reader.id !in s.answers
    ensures ReaderEnabled(s, HungUp) <==> s.reader.id !in s.answers && s.reader.id in s.dropped
  {
    if s.reader.id in s.answers {
      assert ReaderEnabled(s, GotReply);
    } else {
      assert ReaderEnabled(s, TimedOut);
    }
  }

  /** A forwarder that ended was told to stop, or found the main loop gone, or its writer. */
  ghost predicate ForwardersLive(s: Server) {
    forall c | 0 <= c < |s.conns| && s.conns[c].forwarder.ForwarderGone? ::
      s.conns[c].stop || !s.mainAlive || s.conns[c].writer.WriterGone?
  }

  lemma PumpedForwarderLives(s: Server, c: nat, t: ThreadStep)
    requires ThreadEnabled(s, c, t) && ForwardersLive(s)
    ensures c < |s.conns| && !Over(s.conns[c])
    ensures var n := Pumped(s, c, t);
            n.forwarder.ForwarderGone? ==> n.stop || !s.mainAlive || n.writer.WriterGone?
  {
  }

  /** In every run a connection's forwarder goes on until it is told to stop, or has nobody to forward from or to. */
  lemma {:induction false} ForwardersGoOn(ss: seq<Server>, steps: seq<Step>, i: nat)
    requires IsRun(ss, steps) && ss[0] == START && i < |ss|
    ensures ForwardersLive(ss[i])
  {
    hide Served, Pumped, ReaderAfter, HolderAfter, ReaderEnabled, ThreadEnabled;
    if i > 0 {
      var s, step := ss[i - 1], steps[i - 1];
      ForwardersGoOn(ss, steps, i - 1);
      match step {
        case Accept =>
        case Serve(r) =>
          ServedKeepsForwarder(s, r);
          ServedStops(s, r);
        case Pump(c, t) => PumpedForwarderLives(s, c, t);
        case Outside(o) =>
      }
    }
  }

  lemma ServedStops(s: Server, r: ReaderStep)
    requires ReaderEnabled(s, r)
    ensures s.conns != [] && (s.Cur().stop ==> Served(s, r).stop)
  {
  }

  /** Every request of every connection is with the main loop, answered, or dropped by it; unless there is none. */
  ghost predicate RequestsKept(s: Server) {
    forall c, id | 0 <= c < |s.conns| && Asked(id) in s.conns[c].seen ::
      id in s.requests || id in s.answers || id in s.dropped || !s.mainAlive
  }

  /** The reader sees at most one line more, and if it is a request it has the next number. */
  lemma ServedSees(s: Server, r: ReaderStep)
    requires ReaderEnabled(s, r)
    ensures s.conns != []
    ensures || Served(s, r).seen == s.Cur().seen
            || exists x :: Served(s, r).seen == s.Cur().seen + [x] && (x.Asked? ==> x.id == s.nextId && Submits(s, r))
  {
  }

  /** In every run no request is lost between the reader and the main loop. */
  lemma {:induction false} NoRequestIsLost(ss: seq<Server>, steps: seq<Step>, i: nat)
    requires IsRun(ss, steps) && ss[0] == START && i < |ss|
    ensures RequestsKept(ss[i])
  {
    hide Served, Pumped, ReaderAfter, HolderAfter, ReaderEnabled, ThreadEnabled;
    if i > 0 {
      var s, step := ss[i - 1], steps[i - 1];
      NoRequestIsLost(ss, steps, i - 1);
      match step {
        case Accept =>
        case Serve(r) => ServedSees(s, r);
        case Pump(c, t) => PumpedKeepsPhase(s, c, t);
        case Outside(o) =>
          assert o.MainAnswers? ==> s.requests == [s.requests[0]] + s.requests[1..];
      }
    }
  }

  /** Line `k` of connection `c` is the request with this number. */
  ghost predicate AskedAt(s: Server, c: nat, k: nat, id: Id) {
    c < |s.conns| && k < |s.conns[c].seen| && s.conns[c].seen[k] == Asked(id)
  }

  /** Each request has a number of its own. */
  ghost predicate Numbered(s: Server) {
    && (forall c: nat, k: nat, id: Id | AskedAt(s, c, k, id) :: id < s.nextId)
    && (forall c: nat, k: nat, d: nat, l: nat, id: Id | AskedAt(s, c, k, id) && AskedAt(s, d, l, id) ::
          c == d && k == l)
  }

  /** What a step adds to the requests: at most one, with the next number. */
  lemma StepAsks(s: Server, step: Step, c: nat, k: nat, id: Id)
    requires Enabled(s, step) && AskedAt(Next(s, step), c, k, id) && !AskedAt(s, c, k, id)
    ensures id == s.nextId < Next(s, step).nextId && s.conns != []
    ensures c == |s.conns| - 1 && k == |s.Cur().seen|
  {
    hide Served, Pumped, ReaderAfter, HolderAfter, ReaderEnabled, ThreadEnabled;
    match step {
      case Accept =>
      case Serve(r) => ServedSees(s, r);
      case Pump(d, t) => PumpedKeepsPhase(s, d, t);
      case Outside(o) =>
    }
  }

  lemma StepKeepsNumbered(s: Server, step: Step)
    requires Enabled(s, step) && Numbered(s)
    ensures Numbered(Next(s, step))
  {
    hide Enabled, Next, AskedAt;
    var n := Next(s, step);
    NumbersGrow(s, step);
    forall c: nat, k: nat, id: Id | AskedAt(n, c, k, id)
      ensures id < n.nextId
      ensures || AskedAt(s, c, k, id)
              || (s.conns != [] && id == s.nextId < n.nextId && c == |s.conns| - 1 && k == |s.Cur().seen|)
    {
      if !AskedAt(s, c, k, id) {
        StepAsks(s, step, c, k, id);
      }
    }
  }

  lemma NumbersGrow(s: Server, step: Step)
    requires Enabled(s, step)
    ensures s.nextId <= Next(s, step).nextId
  {
  }

  /** In every run no two requests share a number, so an answer is one request's only. */
  lemma {:induction false} RequestsAreNumbered(ss: seq<Server>, steps: seq<Step>, i: nat)
    requires IsRun(ss, steps) && ss[0] == START && i < |ss|
    ensures Numbered(ss[i])
  {
    hide Enabled, Next;
    if i > 0 {
      RequestsAreNumbered(ss, steps, i - 1);
      StepKeepsNumbered(ss[i - 1], steps[i - 1]);
    }
  }

  /** Once the main loop has exited it answers, takes and emits nothing any more. */
  lemma {:induction false} MainStaysGone(ss: seq<Server>, steps: seq<Step>, i: nat, j: nat)
    requires IsRun(ss, steps) && i < j < |ss| && steps[i] == Outside(MainExits)
    ensures !ss[j].mainAlive && ss[j].answers == ss[i].answers && ss[j].emitted == ss[i].emitted && ss[j].requests == []
  {
    hide Served, Pumped, ReaderAfter, HolderAfter, ReaderEnabled, ThreadEnabled;
    if j > i + 1 {
      MainStaysGone(ss, steps, i, j - 1);
    }
  }

  // ---------------------------------------------------------------------------
  // Shutdown
  // ---------------------------------------------------------------------------

  /** The stop flag is set; the accept thread is on its way back to the accept loop. */
  predicate ShuttingDown(s: Server) {
    (s.reader.Stopping? || s.reader.JoiningWriter? || s.reader.JoiningForwarder?) && s.conns != []
  }

  /** The writer is in a write that the peer neither takes nor refuses, and all else has ended. */
  predicate Stuck(s: Server)
    requires s.conns != []
  {
    s.reader.JoiningWriter? && s.Cur().forwarder.ForwarderGone? && s.Cur().writer.Writing? && s.Cur().peer.Stalled?
  }

  function ReaderRank(r: Reader): nat {
    match r
    case Stopping => 3
    case JoiningWriter => 2
    case JoiningForwarder => 1
    case _ => 0
  }

  function WriterRank(w: Writer): nat {
    match w
    case Writing(_) => 2
    case Idle => 1
    case WriterGone => 0
  }

  function ForwarderRank(f: Forwarder): nat {
    match f
    case Listening => 12
    case Holding(_) => 9
    case AwaitingLock => 6
    case Checking => 3
    case ForwarderGone => 0
  }

  /** Steps left, at most. */
  function Measure(s: Server): nat {
    if s.conns == [] then 0
    else ReaderRank(s.reader) + WriterRank(s.Cur().writer) + ForwarderRank(s.Cur().forwarder) + 2 * |s.Cur().queue|
  }

  lemma ReaderStepDecreases(s: Server, r: ReaderStep)
    requires ReaderEnabled(s, r) && ShuttingDown(s)
    ensures ReaderRank(ReaderAfter(s, r)) < ReaderRank(s.reader) && Served(s, r).queue == s.Cur().queue
  {
  }

  lemma ThreadStepDecreases(s: Server, c: nat, t: ThreadStep)
    requires ThreadEnabled(s, c, t) && s.conns[c].stop
    ensures var n, conn := Pumped(s, c, t), s.conns[c];
            WriterRank(n.writer) + ForwarderRank(n.forwarder) + 2 * |n.queue|
            < WriterRank(conn.writer) + ForwarderRank(conn.forwarder) + 2 * |conn.queue|
  {
  }

  /** Each step of the server's own threads takes the shutdown nearer its end; nothing outside sets it back. */
  lemma ShutdownDecreases(s: Server, step: Step)
    requires Enabled(s, step) && Good(s) && ShuttingDown(s)
    ensures Next(s, step).conns != []
    ensures ShuttingDown(Next(s, step)) || Next(s, step).reader.Accepting?
    ensures if step.Outside? then Measure(Next(s, step)) == Measure(s) else Measure(Next(s, step)) < Measure(s)
  {
    hide Served, Pumped, HolderAfter, ThreadEnabled, LockKept, HolderExists, Conversations, AllDelivered, AnswersGiven,
         AllForwarded, AllCutShort, Dealt, WriterRank, ForwarderRank;
    match step {
      case Serve(r) =>
        ServedKeepsForwarder(s, r);
        ReaderStepDecreases(s, r);
      case Pump(c, t) =>
        PumpedKeepsPhase(s, c, t);
        ThreadStepDecreases(s, c, t);
      case Outside(o) =>
    }
  }

  /** Unless stuck, some thread of the server can go on. */
  lemma ShutdownGoesOn(s: Server) returns (step: Step)
    requires Good(s) && ShuttingDown(s) && !Stuck(s)
    ensures Enabled(s, step) && !step.Outside?
  {
    hide LockKept, Conversations, AllDelivered, AnswersGiven, AllForwarded, AllCutShort, Dealt;
    var conn, c := s.Cur(), |s.conns| - 1;
    if s.reader.Stopping? {
      return Serve(DropOut);
    }
    if !conn.forwarder.ForwarderGone? {
      match conn.forwarder {
        case AwaitingLock =>
          LockIsFree(s);
          return Pump(c, Lock);
        case Checking => return Pump(c, Check);
        case Listening => return Pump(c, if s.events != [] then Receive else RunOut);
        case Holding(_) => return Pump(c, Forward);
      }
    }
    if s.reader.JoiningForwarder? {
      return Serve(JoinForwarder);
    }
    match conn.writer {
      case WriterGone => return Serve(JoinWriter);
      case Idle => return Pump(c, if conn.queue != [] then Take else WriterEnds);
      case Writing(_) => return Pump(c, if conn.peer.Draining? then Write else WriteFails);
    }
  }

  /** While the current forwarder waits for the lock nobody else has it: the ones before have ended. */
  lemma LockIsFree(s: Server)
    requires Good(s) && s.conns != [] && s.Cur().forwarder.AwaitingLock?
    ensures s.holder.None?
  {
    hide Conversations, AllDelivered, AnswersGiven, AllForwarded, AllCutShort, Dealt;
  }

  /**
   During a shutdown the server's threads come to a halt exactly in one way: everything has ended but a write to a peer
   that neither reads nor closes. In every other state one of them can go on.
   */
  lemma ShutdownHaltsOnlyOnAStalledPeer(s: Server)
    requires Good(s) && ShuttingDown(s)
    ensures (exists step :: Enabled(s, step) && !step.Outside?) <==> !Stuck(s)
  {
    hide Good;
    if Stuck(s) {
      forall step | Enabled(s, step) ensures step.Outside? {
        StuckHasNoStep(s, step);
      }
    } else {
      var step := ShutdownGoesOn(s);
    }
  }

  lemma StuckHasNoStep(s: Server, step: Step)
    requires Good(s) && ShuttingDown(s) && Stuck(s) && Enabled(s, step)
    ensures step.Outside?
  {
    hide LockKept, HolderExists, Conversations, AllDelivered, AnswersGiven, AllForwarded, AllCutShort, Dealt;
    if step.Pump? {
      PumpedKeepsPhase(s, step.c, step.t);
    }
  }

  /** How many of the first `i` steps were taken by the server's own threads. */
  function ServerSteps(steps: seq<Step>, i: nat): nat
    requires i <= |steps|
  {
    if i == 0 then 0 else ServerSteps(steps, i - 1) + if steps[i - 1].Outside? then 0 else 1
  }

  lemma {:induction false} ServerStepsCount(steps: seq<Step>, i: nat)
    requires i <= |steps|
    ensures ServerSteps(steps, i) == |set k | 0 <= k < i && !steps[k].Outside?|
  {
    if i > 0 {
      ServerStepsCount(steps, i - 1);
      var before, now := set k | 0 <= k < i - 1 && !steps[k].Outside?, set k | 0 <= k < i && !steps[k].Outside?;
      assert now == if steps[i - 1].Outside? then before else before + {i - 1};
    }
  }

  /**
   A shutdown ends. However the threads interleave, and whatever the main loop and the peers do meanwhile, a run that is
   shutting down throughout has no more server steps than the measure of its first state. With the lemma above: unless a
   peer stalls a write, both joins complete and the accept loop runs again.
   */
  lemma {:induction false} ShutdownIsBounded(ss: seq<Server>, steps: seq<Step>, i: nat)
    requires IsRun(ss, steps) && Good(ss[0]) && i <= |steps| && forall k | 0 <= k < |ss| :: ShuttingDown(ss[k])
    ensures ServerSteps(steps, i) + Measure(ss[i]) <= Measure(ss[0])
  {
    hide Enabled, Next, Good, Measure;
    assert ShuttingDown(ss[i]);
    if i > 0 {
      ShutdownIsBounded(ss, steps, i - 1);
      RunIsGood(ss, steps, i - 1);
      assert ShuttingDown(ss[i - 1]);
      ShutdownDecreases(ss[i - 1], steps[i - 1]);
    }
  }

  /** A run that starts shutting down and never reaches the accept loop is shutting down throughout. */
  lemma {:induction false} ShuttingDownUntilAccepting(ss: seq<Server>, steps: seq<Step>, i: nat)
    requires IsRun(ss, steps) && Good(ss[0]) && ShuttingDown(ss[0]) && i < |ss|
    requires forall k | 0 <= k < |ss| :: !ss[k].reader.Accepting?
    ensures ShuttingDown(ss[i])
  {
    hide Enabled, Next, Good, Measure, ShuttingDown;
    if i > 0 {
      ShuttingDownUntilAccepting(ss, steps, i - 1);
      RunIsGood(ss, steps, i - 1);
      ShutdownDecreases(ss[i - 1], steps[i - 1]);
    }
  }

  /** The run cannot or need not go on: no thread of the server has a step, or they have had more than the measure. */
  ghost predicate RunItsCourse(ss: seq<Server>, steps: seq<Step>)
    requires |ss| == |steps| + 1
  {
    || ServerSteps(steps, |steps|) > Measure(ss[0])
    || !exists step :: Enabled(ss[|steps|], step) && !step.Outside?
  }

  /**
   Both joins complete, or a peer stalls a write. Every run from a shutdown in which the server's threads go on as long
   as they can either comes back to the accept loop or ends stuck on a peer that neither reads nor closes.
   */
  lemma ShutdownEnds(ss: seq<Server>, steps: seq<Step>)
    requires IsRun(ss, steps) && Good(ss[0]) && ShuttingDown(ss[0]) && RunItsCourse(ss, steps)
    ensures (exists i | 0 <= i < |ss| :: ss[i].reader.Accepting?)
            || (ShuttingDown(ss[|steps|]) && Stuck(ss[|steps|]))
  {
    hide Enabled, Good, Measure, ShuttingDown, Stuck, ServerSteps;
    if forall k | 0 <= k < |ss| :: !ss[k].reader.Accepting? {
      forall k | 0 <= k < |ss| ensures ShuttingDown(ss[k]) {
        ShuttingDownUntilAccepting(ss, steps, k);
      }
      ShutdownIsBounded(ss, steps, |steps|);
      RunIsGood(ss, steps, |steps|);
      assert ShuttingDown(ss[|steps|]);
      ShutdownHaltsOnlyOnAStalledPeer(ss[|steps|]);
    }
  }
}
