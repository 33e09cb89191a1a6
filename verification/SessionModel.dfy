/**
 One SSH session: what each incoming message, engine completion and close does to the
 session's own state, to the socket and to the engine.

 `sent` and `calls` are the frames and engine calls in the order they happened;
 `opened*`, `asked` and `strays` only record history, no step looks at them.
 */
module SessionModel {
  import opened Common
  import opened RateLimiter
  import B = Base64

  const MAX_IN_FLIGHT_REQUESTS: nat := 4
  const SFTP_CHUNK_BYTES: nat := 512 * 1024

  // Close codes of the socket.
  const NORMAL: nat := 1000
  const RATE_EXCEEDED: nat := 1008
  const TOO_LARGE: nat := 1009
  const FAILED: nat := 1011

  /** A request's method with parameters of the right types; any other combination is Unsupported. */
  datatype Call =
    | Plain(name: string, arguments: seq<string>)
    | OpenShell(cols: int, rows: int)
    | OpenRead(path: string)
    | ReadChunk(h: int)
    | CloseRead(h: int)
    | OpenWrite(path: string)
    | WriteChunk(h: int, data: Option<B.Bytes>)
    | CloseWrite(h: int)
    | Unsupported

  datatype EngineCall =
    | OnConnection(conn: int, name: string, arguments: seq<string>)
    | ShellOpen(conn: int, cols: int, rows: int)
    | ShellWrite(h: int, text: string)
    | ShellResize(h: int, cols: int, rows: int)
    | ShellClose(h: int)
    | ReadOpen(conn: int, path: string)
    | ChunkRead(h: int, maxBytes: nat)
    | ReadClose(h: int)
    | WriteOpen(conn: int, path: string)
    | ChunkWrite(h: int, data: B.Bytes)
    | WriteClose(h: int)
    | Disconnect(conn: int)
    | TransportClose
    | SocketClose(code: nat)

  datatype Reply = Result | Refused | TooMany

  datatype Frame =
    | StateFrame(name: string)
    | HostKeyFrame(challenge: string)
    | MismatchFrame
    | Response(id: string, reply: Reply)
    | ShellDataFrame

  /** A frame from the client, after parsing. Garbage is anything the session drops. */
  datatype Incoming =
    | TooLarge
    | Garbage
    | HostKeyResponse(challenge: string, accepted: Option<bool>)
    | ShellWriteMessage(text: string)
    | ShellResizeMessage(cols: int, rows: int)
    | ShellCloseMessage
    | DisconnectMessage
    | Request(id: string, call: Option<Call>)

  datatype Outcome =
    | Threw
    | Finished
    | ShellOpened(h: int)
    | ReadOpened(h: int)
    | WriteOpened(h: int)
    | Chunk(size: nat)

  /** `fits` says whether the frame sent in the course of the event is within the frame limit. */
  datatype Event =
    | Receive(msg: Incoming, now: int, fits: bool)
    | Settled(id: string, outcome: Outcome, fits: bool)
    | HostKeyOffered(fingerprint: string, challenge: string, fits: bool)
    | ChallengeTimedOut(challenge: string)
    | Connected(conn: Option<int>, fits: bool)
    | ShellOutput(fits: bool)
    | SocketClosed
    | Terminated(code: nat)

  datatype Verdict = Verdict(challenge: string, accepted: bool)

  datatype Session = Session(
    expected: Option<string>, bucket: Bucket, closed: bool,
    conn: Option<int>, shell: Option<int>, pending: Option<string>, blocked: bool,
    inFlight: map<string, Call>, readers: seq<int>, writers: seq<int>,
    sent: seq<Frame>, calls: seq<EngineCall>, verdicts: seq<Verdict>,
    openedReads: set<int>, openedWrites: set<int>, asked: multiset<string>, strays: multiset<string>)

  function Fresh(expected: Option<string>, now: int): Session {
    Session(expected, Bucket(BURST, now), false, None, None, None, false, map[], [], [],
            [StateFrame("connecting")], [], [], {}, {}, multiset{}, multiset{})
  }

  // ---- effects ----

  function Called(s: Session, c: EngineCall): Session {
    s.(calls := s.calls + [c])
  }

  function ReadCloses(hs: seq<int>): seq<EngineCall> {
    seq(|hs|, i requires 0 <= i < |hs| => ReadClose(hs[i]))
  }

  function WriteCloses(hs: seq<int>): seq<EngineCall> {
    seq(|hs|, i requires 0 <= i < |hs| => WriteClose(hs[i]))
  }

  function Judged(s: Session, accepted: bool): Session {
    if s.pending.Some?
    then s.(verdicts := s.verdicts + [Verdict(s.pending.value, accepted)], pending := None)
    else s
  }

  function ShellClosed(s: Session): Session {
    if s.shell.Some? then Called(s, ShellClose(s.shell.value)).(shell := None) else s
  }

  function Disconnected(s: Session): Session {
    if s.conn.Some? then Called(s, Disconnect(s.conn.value)).(conn := None) else s
  }

  function HandlesClosed(s: Session): Session {
    s.(calls := s.calls + ReadCloses(s.readers) + WriteCloses(s.writers), readers := [], writers := [])
  }

  /** The engine calls close makes: the shell, the connection, then every handle still held. */
  function ClosingCalls(s: Session): seq<EngineCall> {
    (if s.shell.Some? then [ShellClose(s.shell.value)] else [])
    + (if s.conn.Some? then [Disconnect(s.conn.value)] else [])
    + ReadCloses(s.readers) + WriteCloses(s.writers)
  }

  /** A challenge nobody has answered is refused by close. */
  function ClosingVerdicts(s: Session): seq<Verdict> {
    if s.pending.Some? then s.verdicts + [Verdict(s.pending.value, false)] else s.verdicts
  }

  /** The transport is closed, and the socket too unless it is the socket that has closed. */
  function OuterCalls(code: Option<nat>): seq<EngineCall> {
    [TransportClose] + (if code.Some? then [SocketClose(code.value)] else [])
  }

  function OuterClosed(s: Session, code: Option<nat>): Session {
    s.(calls := s.calls + OuterCalls(code))
  }

  function Closed(s: Session, code: Option<nat>): Session {
    if s.closed then s
    else
      s.(closed := true, verdicts := ClosingVerdicts(s), pending := None, shell := None, conn := None,
         calls := s.calls + ClosingCalls(s) + OuterCalls(code), readers := [], writers := [])
  }

  /** The same, step by step. */
  lemma ClosedInSteps(s: Session, code: Option<nat>)
    requires !s.closed
    ensures Closed(s, code)
         == OuterClosed(HandlesClosed(Disconnected(ShellClosed(Judged(s.(closed := true), false)))), code)
  {
    var a := Judged(s.(closed := true), false);
    assert a == s.(closed := true, verdicts := ClosingVerdicts(s), pending := None);
    var b := Disconnected(ShellClosed(a));
    var shell := if s.shell.Some? then [ShellClose(s.shell.value)] else [];
    var conn := if s.conn.Some? then [Disconnect(s.conn.value)] else [];
    assert b == a.(calls := s.calls + shell + conn, shell := None, conn := None);
    assert s.calls + shell + conn + ReadCloses(s.readers) + WriteCloses(s.writers) == s.calls + ClosingCalls(s);
  }

  function Sent(s: Session, f: Frame, fits: bool): Session {
    if s.closed then s
    else if !fits then Closed(s, Some(TOO_LARGE))
    else s.(sent := s.sent + [f])
  }

  function Without(hs: seq<int>, h: int): seq<int> {
    if hs == [] then [] else if hs[0] == h then Without(hs[1..], h) else [hs[0]] + Without(hs[1..], h)
  }

  // ---- requests ----

  /** An engine call, and the session just before it. */
  datatype Effect = Effect(before: Session, call: EngineCall)

  /** The branch of handleRequest a call takes on a connected session; None is the unsupported one. */
  function EffectOf(s: Session, call: Call): Option<Effect>
    requires s.conn.Some?
  {
    var conn := s.conn.value;
    match call
    case Plain(name, arguments) => Some(Effect(s, OnConnection(conn, name, arguments)))
    case OpenShell(cols, rows) => Some(Effect(ShellClosed(s), ShellOpen(conn, cols, rows)))
    case OpenRead(path) => Some(Effect(s, ReadOpen(conn, path)))
    case ReadChunk(h) => if h in s.readers then Some(Effect(s, ChunkRead(h, SFTP_CHUNK_BYTES))) else None
    case CloseRead(h) =>
      if h in s.readers then Some(Effect(s.(readers := Without(s.readers, h)), ReadClose(h))) else None
    case OpenWrite(path) => Some(Effect(s, WriteOpen(conn, path)))
    case WriteChunk(h, data) =>
      if h in s.writers && data.Some? && |data.value| <= SFTP_CHUNK_BYTES then Some(Effect(s, ChunkWrite(h, data.value)))
      else None
    case CloseWrite(h) =>
      if h in s.writers then Some(Effect(s.(writers := Without(s.writers, h)), WriteClose(h))) else None
    case Unsupported => None
  }

  /** handleRequest up to its first await. */
  function Dispatched(s: Session, id: string, call: Call, fits: bool): Session
    requires s.conn.Some?
  {
    match EffectOf(s, call)
    case None => Sent(s, Response(id, Refused), fits)
    case Some(effect) => Called(effect.before, effect.call).(inFlight := s.inFlight[id := call])
  }

  /** A request the session owes an answer: a method, on a session that is open and connected. */
  predicate Owed(s: Session, call: Option<Call>) {
    !s.closed && call.Some? && s.conn.Some?
  }

  /** The request is counted against the rate, and remembered as owed or not. */
  function Noted(s: Session, id: string, call: Option<Call>, now: int): Session {
    s.(bucket := Consumed(s.bucket, now),
       asked := if Owed(s, call) then s.asked + multiset{id} else s.asked)
  }

  predicate WindowFull(s: Session, id: string) {
    |s.inFlight| >= MAX_IN_FLIGHT_REQUESTS || id in s.inFlight
  }

  function Requested(s: Session, id: string, call: Option<Call>, now: int, fits: bool): Session {
    var t := Noted(s, id, call, now);
    if !Passes(s.bucket, now) then Closed(t, Some(RATE_EXCEEDED))
    else if WindowFull(s, id) then
      Sent(if Owed(s, call) then t else t.(strays := s.strays + multiset{id}), Response(id, TooMany), fits)
    else if Owed(s, call) then Dispatched(t, id, call.value, fits)
    else t
  }

  function Received(s: Session, msg: Incoming, now: int, fits: bool): Session {
    if s.closed then s
    else
      match msg
      case TooLarge => Closed(s, Some(TOO_LARGE))
      case Garbage => s
      case HostKeyResponse(challenge, accepted) =>
        if s.pending == Some(challenge) && accepted.Some? then Judged(s, accepted.value) else s
      case ShellWriteMessage(text) => if s.shell.Some? then Called(s, ShellWrite(s.shell.value, text)) else s
      case ShellResizeMessage(cols, rows) =>
        if s.shell.Some? then Called(s, ShellResize(s.shell.value, cols, rows)) else s
      case ShellCloseMessage => ShellClosed(s)
      case DisconnectMessage => Closed(s, Some(NORMAL))
      case Request(id, call) => Requested(s, id, call, now, fits)
  }

  /** What the engine can answer to a call. */
  predicate Answers(call: Call, outcome: Outcome) {
    || outcome.Threw?
    || match call
       case OpenShell(_, _) => outcome.ShellOpened?
       case OpenRead(_) => outcome.ReadOpened?
       case OpenWrite(_) => outcome.WriteOpened?
       case ReadChunk(_) => outcome.Chunk?
       case _ => outcome.Finished?
  }

  /** What the session keeps of an answer. */
  function Taken(s: Session, outcome: Outcome): Session {
    match outcome
    case ShellOpened(h) => s.(shell := Some(h))
    case ReadOpened(h) => s.(readers := s.readers + [h], openedReads := s.openedReads + {h})
    case WriteOpened(h) => s.(writers := s.writers + [h], openedWrites := s.openedWrites + {h})
    case _ => s
  }

  function ReplyTo(outcome: Outcome): Reply {
    if outcome.Threw? || (outcome.Chunk? && outcome.size > SFTP_CHUNK_BYTES) then Refused else Result
  }

  /** The rest of handleRequest, once the engine has answered. */
  function Answered(s: Session, id: string, outcome: Outcome, fits: bool): Session {
    var t := Sent(Taken(s, outcome), Response(id, ReplyTo(outcome)), fits);
    t.(inFlight := t.inFlight - {id})
  }

  function Offered(s: Session, fingerprint: string, challenge: string, fits: bool): Session {
    if s.expected.Some? then
      if s.expected == Some(fingerprint) then s
      else Sent(Sent(s.(blocked := true), MismatchFrame, fits), StateFrame("error"), true)
    else Sent(s.(pending := Some(challenge)), HostKeyFrame(challenge), fits)
  }

  /** The two ends of start: connected, or failed. */
  function Opened(s: Session, conn: Option<int>, fits: bool): Session {
    if conn.Some? then Sent(s.(conn := conn), StateFrame("ready"), fits)
    else Closed(if s.blocked then s else Sent(s, StateFrame("error"), fits), Some(FAILED))
  }

  function Step(s: Session, e: Event): Session {
    match e
    case Receive(msg, now, fits) => Received(s, msg, now, fits)
    case Settled(id, outcome, fits) => Answered(s, id, outcome, fits)
    case HostKeyOffered(fingerprint, challenge, fits) => Offered(s, fingerprint, challenge, fits)
    case ChallengeTimedOut(challenge) => if s.pending == Some(challenge) then Judged(s, false) else s
    case Connected(conn, fits) => Opened(s, conn, fits)
    case ShellOutput(fits) => Sent(s, ShellDataFrame, fits)
    case SocketClosed => Closed(s, None)
    case Terminated(code) => Closed(s, Some(code))
  }

  /** Only a running call settles, with an answer of its kind; the engine never hands out a handle twice. */
  predicate Possible(s: Session, e: Event) {
    e.Settled? ==>
      && e.id in s.inFlight && Answers(s.inFlight[e.id], e.outcome)
      && (e.outcome.ReadOpened? ==> e.outcome.h !in s.openedReads)
      && (e.outcome.WriteOpened? ==> e.outcome.h !in s.openedWrites)
  }

  ghost predicate Runs(s: Session, events: seq<Event>, t: Session)
    decreases |events|
  {
    if events == [] then s == t
    else Possible(s, events[0]) && Runs(Step(s, events[0]), events[1..], t)
  }
}
