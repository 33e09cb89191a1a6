/** What holds of a session in every order of messages, completions and close. */
module SessionTheorems {
  import opened Common
  import opened RateLimiter
  import opened SessionModel

  /** How often the id has been answered. */
  function Responses(sent: seq<Frame>, id: string): nat {
    if sent == [] then 0
    else
      var last := sent[|sent| - 1];
      Responses(sent[..|sent| - 1], id) + (if last.Response? && last.id == id then 1 else 0)
  }

  ghost predicate NoRepeats(hs: seq<int>) {
    forall i, j :: 0 <= i < j < |hs| ==> hs[i] != hs[j]
  }

  /** A chunk or close call names a handle that was opened and not closed before it. */
  ghost predicate CallsOwned(s: Session) {
    && (forall i :: 0 <= i < |s.calls| && s.calls[i].ChunkRead? ==>
          s.calls[i].h in s.openedReads && ReadClose(s.calls[i].h) !in s.calls[..i])
    && (forall i :: 0 <= i < |s.calls| && s.calls[i].ReadClose? ==>
          s.calls[i].h in s.openedReads && ReadClose(s.calls[i].h) !in s.calls[..i])
    && (forall i :: 0 <= i < |s.calls| && s.calls[i].ChunkWrite? ==>
          s.calls[i].h in s.openedWrites && WriteClose(s.calls[i].h) !in s.calls[..i])
    && (forall i :: 0 <= i < |s.calls| && s.calls[i].WriteClose? ==>
          s.calls[i].h in s.openedWrites && WriteClose(s.calls[i].h) !in s.calls[..i])
  }

  /** The handles a session holds were opened, are held once and are not closed yet. */
  ghost predicate HandlesOwned(s: Session) {
    && NoRepeats(s.readers) && NoRepeats(s.writers)
    && (forall h :: h in s.readers ==> h in s.openedReads && ReadClose(h) !in s.calls)
    && (forall h :: h in s.writers ==> h in s.openedWrites && WriteClose(h) !in s.calls)
  }

  /** Every owed request is answered exactly once or still in flight; a closed session owes at most the rest. */
  ghost predicate Balanced(s: Session, id: string) {
    var answered := Responses(s.sent, id);
    var noted := s.asked[id] + s.strays[id];
    if s.closed then answered <= noted
    else answered + (if id in s.inFlight then 1 else 0) == noted
  }

  ghost predicate Inv(s: Session) {
    && |s.inFlight| <= MAX_IN_FLIGHT_REQUESTS
    && CallsOwned(s) && HandlesOwned(s)
    && forall id :: Balanced(s, id)
  }

  // ---- handles ----

  ghost predicate Owned(s: Session) {
    CallsOwned(s) && HandlesOwned(s)
  }

  predicate AboutHandles(c: EngineCall) {
    c.ChunkRead? || c.ReadClose? || c.ChunkWrite? || c.WriteClose?
  }

  /** s and t agree on everything ownership speaks of. */
  ghost predicate SameHandles(s: Session, t: Session) {
    && t.calls == s.calls && t.readers == s.readers && t.writers == s.writers
    && t.openedReads == s.openedReads && t.openedWrites == s.openedWrites
  }

  lemma OtherCall(s: Session, c: EngineCall)
    requires Owned(s) && !AboutHandles(c)
    ensures Owned(Called(s, c))
  {
    var t := Called(s, c);
    assert forall i :: 0 <= i < |s.calls| ==> t.calls[i] == s.calls[i] && t.calls[..i] == s.calls[..i];
    assert t.calls[|s.calls|] == c;
  }

  lemma ChunkCall(s: Session, c: EngineCall)
    requires Owned(s)
    requires (c.ChunkRead? && c.h in s.readers) || (c.ChunkWrite? && c.h in s.writers)
    ensures Owned(Called(s, c))
  {
    var t := Called(s, c);
    assert forall i :: 0 <= i < |s.calls| ==> t.calls[i] == s.calls[i] && t.calls[..i] == s.calls[..i];
    assert t.calls[..|s.calls|] == s.calls;
  }

  lemma {:induction false} WithoutIs(hs: seq<int>, h: int)
    requires NoRepeats(hs)
    ensures NoRepeats(Without(hs, h))
    ensures forall k :: k in Without(hs, h) <==> k in hs && k != h
    decreases |hs|
  {
    if hs != [] {
      assert hs == [hs[0]] + hs[1..];
      WithoutIs(hs[1..], h);
      assert hs[0] !in hs[1..];
    }
  }

  lemma CloseReadCall(s: Session, h: int)
    requires Owned(s) && h in s.readers
    ensures Owned(Called(s.(readers := Without(s.readers, h)), ReadClose(h)))
  {
    WithoutIs(s.readers, h);
    var t := Called(s.(readers := Without(s.readers, h)), ReadClose(h));
    assert forall i :: 0 <= i < |s.calls| ==> t.calls[i] == s.calls[i] && t.calls[..i] == s.calls[..i];
    assert t.calls[..|s.calls|] == s.calls;
  }

  lemma CloseWriteCall(s: Session, h: int)
    requires Owned(s) && h in s.writers
    ensures Owned(Called(s.(writers := Without(s.writers, h)), WriteClose(h)))
  {
    WithoutIs(s.writers, h);
    var t := Called(s.(writers := Without(s.writers, h)), WriteClose(h));
    assert forall i :: 0 <= i < |s.calls| ==> t.calls[i] == s.calls[i] && t.calls[..i] == s.calls[..i];
    assert t.calls[..|s.calls|] == s.calls;
  }

  /** Closing the handle that is held first. */
  lemma CloseFirstRead(s: Session) returns (t: Session)
    requires Owned(s) && s.readers != []
    ensures Owned(t)
    ensures t == s.(calls := s.calls + [ReadClose(s.readers[0])], readers := s.readers[1..])
    ensures t.calls + ReadCloses(t.readers) == s.calls + ReadCloses(s.readers)
  {
    CloseReadCall(s, s.readers[0]);
    FirstGone(s.readers);
    t := Called(s.(readers := s.readers[1..]), ReadClose(s.readers[0]));
    assert ReadCloses(s.readers) == [ReadClose(s.readers[0])] + ReadCloses(s.readers[1..]);
  }

  lemma CloseFirstWrite(s: Session) returns (t: Session)
    requires Owned(s) && s.writers != []
    ensures Owned(t)
    ensures t == s.(calls := s.calls + [WriteClose(s.writers[0])], writers := s.writers[1..])
    ensures t.calls + WriteCloses(t.writers) == s.calls + WriteCloses(s.writers)
  {
    CloseWriteCall(s, s.writers[0]);
    FirstGone(s.writers);
    t := Called(s.(writers := s.writers[1..]), WriteClose(s.writers[0]));
    assert WriteCloses(s.writers) == [WriteClose(s.writers[0])] + WriteCloses(s.writers[1..]);
  }

  /** Closing the session closes each handle it still holds, and each once. */
  lemma {:induction false} CloseAllReads(s: Session)
    requires Owned(s)
    ensures Owned(s.(calls := s.calls + ReadCloses(s.readers), readers := []))
    decreases |s.readers|
  {
    if s.readers == [] {
      assert s.calls + ReadCloses(s.readers) == s.calls;
    } else {
      var t := CloseFirstRead(s);
      CloseAllReads(t);
    }
  }

  lemma {:induction false} CloseAllWrites(s: Session)
    requires Owned(s)
    ensures Owned(s.(calls := s.calls + WriteCloses(s.writers), writers := []))
    decreases |s.writers|
  {
    if s.writers == [] {
      assert s.calls + WriteCloses(s.writers) == s.calls;
    } else {
      var t := CloseFirstWrite(s);
      CloseAllWrites(t);
    }
  }

  lemma FirstGone(hs: seq<int>)
    requires hs != [] && NoRepeats(hs)
    ensures Without(hs, hs[0]) == hs[1..]
  {
    AbsentStays(hs[1..], hs[0]);
  }

  lemma {:induction false} AbsentStays(hs: seq<int>, h: int)
    requires h !in hs
    ensures Without(hs, h) == hs
    decreases |hs|
  {
    if hs != [] { AbsentStays(hs[1..], h); }
  }

  lemma OwnedSame(s: Session, t: Session)
    requires Owned(s) && SameHandles(s, t)
    ensures Owned(t)
  {
  }

  lemma ShellClosedOwned(s: Session)
    requires Owned(s)
    ensures Owned(ShellClosed(s))
  {
    if s.shell.Some? {
      OtherCall(s, ShellClose(s.shell.value));
      OwnedSame(Called(s, ShellClose(s.shell.value)), ShellClosed(s));
    }
  }

  lemma DisconnectedOwned(s: Session)
    requires Owned(s)
    ensures Owned(Disconnected(s))
  {
    if s.conn.Some? {
      OtherCall(s, Disconnect(s.conn.value));
      OwnedSame(Called(s, Disconnect(s.conn.value)), Disconnected(s));
    }
  }

  lemma OuterOwned(s: Session, code: Option<nat>)
    requires Owned(s)
    ensures Owned(OuterClosed(s, code))
  {
    OtherCall(s, TransportClose);
    if code.Some? {
      OtherCall(Called(s, TransportClose), SocketClose(code.value));
      assert OuterClosed(s, code) == Called(Called(s, TransportClose), SocketClose(code.value));
    } else {
      assert OuterClosed(s, code) == Called(s, TransportClose);
    }
  }

  lemma ClosingOwned(s: Session, code: Option<nat>)
    requires Owned(s)
    ensures Owned(Closed(s, code))
  {
    if !s.closed {
      ClosedInSteps(s, code);
      var a := Judged(s.(closed := true), false);
      OwnedSame(s, a);
      ShellClosedOwned(a);
      var b := Disconnected(ShellClosed(a));
      DisconnectedOwned(ShellClosed(a));
      CloseAllReads(b);
      CloseAllWrites(b.(calls := b.calls + ReadCloses(b.readers), readers := []));
      OuterOwned(HandlesClosed(b), code);
    }
  }

  lemma ClosedOwned(s: Session)
    requires Owned(s)
    ensures forall code :: Owned(Closed(s, code))
  {
    forall code ensures Owned(Closed(s, code)) { ClosingOwned(s, code); }
  }

  lemma SentOwned(s: Session, f: Frame, fits: bool)
    requires Owned(s)
    ensures Owned(Sent(s, f, fits))
  {
    ClosedOwned(s);
    OwnedSame(s, s.(sent := s.sent + [f]));
  }

  lemma EffectOwned(s: Session, call: Call)
    requires Owned(s) && s.conn.Some?
    ensures EffectOf(s, call).Some? ==> Owned(Called(EffectOf(s, call).value.before, EffectOf(s, call).value.call))
  {
    var conn := s.conn.value;
    match call {
      case Plain(name, arguments) => OtherCall(s, OnConnection(conn, name, arguments));
      case OpenShell(cols, rows) => ShellClosedOwned(s); OtherCall(ShellClosed(s), ShellOpen(conn, cols, rows));
      case OpenRead(path) => OtherCall(s, ReadOpen(conn, path));
      case ReadChunk(h) => if h in s.readers { ChunkCall(s, ChunkRead(h, SFTP_CHUNK_BYTES)); }
      case CloseRead(h) => if h in s.readers { CloseReadCall(s, h); }
      case OpenWrite(path) => OtherCall(s, WriteOpen(conn, path));
      case WriteChunk(h, data) => if h in s.writers && data.Some? { ChunkCall(s, ChunkWrite(h, data.value)); }
      case CloseWrite(h) => if h in s.writers { CloseWriteCall(s, h); }
      case Unsupported =>
    }
  }

  lemma DispatchedOwned(s: Session, id: string, call: Call, fits: bool)
    requires Owned(s) && s.conn.Some?
    ensures Owned(Dispatched(s, id, call, fits))
  {
    EffectOwned(s, call);
    match EffectOf(s, call) {
      case None => SentOwned(s, Response(id, Refused), fits);
      case Some(effect) => OwnedSame(Called(effect.before, effect.call), Dispatched(s, id, call, fits));
    }
  }

  lemma RequestedOwned(s: Session, id: string, call: Option<Call>, now: int, fits: bool)
    requires Owned(s)
    ensures Owned(Requested(s, id, call, now, fits))
  {
    var t := Noted(s, id, call, now);
    OwnedSame(s, t);
    if !Passes(s.bucket, now) {
      ClosedOwned(t);
    } else if WindowFull(s, id) {
      var u := if Owed(s, call) then t else t.(strays := s.strays + multiset{id});
      OwnedSame(s, u);
      SentOwned(u, Response(id, TooMany), fits);
    } else if Owed(s, call) {
      DispatchedOwned(t, id, call.value, fits);
    }
  }

  lemma ShellTalkOwned(s: Session, msg: Incoming, now: int, fits: bool)
    requires Owned(s) && (msg.ShellWriteMessage? || msg.ShellResizeMessage?)
    ensures Owned(Received(s, msg, now, fits))
  {
    if s.shell.Some? && msg.ShellWriteMessage? { OtherCall(s, ShellWrite(s.shell.value, msg.text)); }
    if s.shell.Some? && msg.ShellResizeMessage? { OtherCall(s, ShellResize(s.shell.value, msg.cols, msg.rows)); }
  }

  lemma ReceivedOwned(s: Session, msg: Incoming, now: int, fits: bool)
    requires Owned(s)
    ensures Owned(Received(s, msg, now, fits))
  {
    match msg {
      case TooLarge => ClosedOwned(s);
      case Garbage =>
      case HostKeyResponse(challenge, accepted) => if accepted.Some? { OwnedSame(s, Judged(s, accepted.value)); }
      case ShellWriteMessage(_) => ShellTalkOwned(s, msg, now, fits);
      case ShellResizeMessage(_, _) => ShellTalkOwned(s, msg, now, fits);
      case ShellCloseMessage => ShellClosedOwned(s);
      case DisconnectMessage => ClosedOwned(s);
      case Request(id, call) => RequestedOwned(s, id, call, now, fits);
    }
  }

  /** A handle just opened is new, so it was never closed. */
  lemma OpenedOwned(s: Session, outcome: Outcome)
    requires Owned(s)
    requires outcome.ReadOpened? ==> outcome.h !in s.openedReads
    requires outcome.WriteOpened? ==> outcome.h !in s.openedWrites
    ensures outcome.ReadOpened? ==>
              Owned(s.(readers := s.readers + [outcome.h], openedReads := s.openedReads + {outcome.h}))
    ensures outcome.WriteOpened? ==>
              Owned(s.(writers := s.writers + [outcome.h], openedWrites := s.openedWrites + {outcome.h}))
  {
    if outcome.ReadOpened? {
      assert ReadClose(outcome.h) !in s.calls;
    }
    if outcome.WriteOpened? {
      assert WriteClose(outcome.h) !in s.calls;
    }
  }

  lemma AnsweredOwned(s: Session, id: string, outcome: Outcome, fits: bool)
    requires Owned(s)
    requires outcome.ReadOpened? ==> outcome.h !in s.openedReads
    requires outcome.WriteOpened? ==> outcome.h !in s.openedWrites
    ensures Owned(Answered(s, id, outcome, fits))
  {
    OpenedOwned(s, outcome);
    var t := Taken(s, outcome);
    if !outcome.ReadOpened? && !outcome.WriteOpened? { OwnedSame(s, t); }
    var u := Sent(t, Response(id, ReplyTo(outcome)), fits);
    SentOwned(t, Response(id, ReplyTo(outcome)), fits);
    OwnedSame(u, u.(inFlight := u.inFlight - {id}));
  }

  lemma OfferedOwned(s: Session, fingerprint: string, challenge: string, fits: bool)
    requires Owned(s)
    ensures Owned(Offered(s, fingerprint, challenge, fits))
  {
    if s.expected.Some? {
      var t := s.(blocked := true);
      OwnedSame(s, t);
      SentOwned(t, MismatchFrame, fits);
      SentOwned(Sent(t, MismatchFrame, fits), StateFrame("error"), true);
    } else {
      OwnedSame(s, s.(pending := Some(challenge)));
      SentOwned(s.(pending := Some(challenge)), HostKeyFrame(challenge), fits);
    }
  }

  lemma ConnectedOwned(s: Session, conn: Option<int>, fits: bool)
    requires Owned(s)
    ensures Owned(Opened(s, conn, fits))
  {
    if conn.Some? {
      OwnedSame(s, s.(conn := conn));
      SentOwned(s.(conn := conn), StateFrame("ready"), fits);
    } else {
      SentOwned(s, StateFrame("error"), fits);
      ClosedOwned(if s.blocked then s else Sent(s, StateFrame("error"), fits));
    }
  }

  lemma StepOwned(s: Session, e: Event)
    requires Owned(s) && Possible(s, e)
    ensures Owned(Step(s, e))
  {
    match e
    case Receive(msg, now, fits) => ReceivedOwned(s, msg, now, fits);
    case Settled(id, outcome, fits) => AnsweredOwned(s, id, outcome, fits);
    case HostKeyOffered(fingerprint, challenge, fits) => OfferedOwned(s, fingerprint, challenge, fits);
    case ChallengeTimedOut(challenge) => OwnedSame(s, Judged(s, false));
    case Connected(conn, fits) => ConnectedOwned(s, conn, fits);
    case ShellOutput(fits) => SentOwned(s, ShellDataFrame, fits);
    case SocketClosed => ClosedOwned(s);
    case Terminated(_) => ClosedOwned(s);
  }

  // ---- responses ----

  lemma ResponsesLast(sent: seq<Frame>, f: Frame, id: string)
    ensures Responses(sent + [f], id) == Responses(sent, id) + (if f.Response? && f.id == id then 1 else 0)
  {
    assert (sent + [f])[..|sent|] == sent;
  }

  /** t has the same frames, window and notes as s. */
  ghost predicate SameBooks(s: Session, t: Session) {
    t.sent == s.sent && t.inFlight == s.inFlight && t.asked == s.asked && t.strays == s.strays
  }

  lemma ClosedKeeps(s: Session)
    ensures forall code :: SameBooks(s, Closed(s, code)) && Closed(s, code).closed
  {
  }

  /** Sending one frame: the books balance after it if they did with it counted in. */
  lemma SentBalanced(s: Session, f: Frame, fits: bool, x: string)
    requires if s.closed then Balanced(s, x)
             else Responses(s.sent, x) + (if f.Response? && f.id == x then 1 else 0) + (if x in s.inFlight then 1 else 0)
                  == s.asked[x] + s.strays[x]
    ensures Balanced(Sent(s, f, fits), x)
    ensures Sent(s, f, fits).inFlight == s.inFlight
  {
    ResponsesLast(s.sent, f, x);
    ClosedKeeps(s);
  }

  lemma EffectBooks(s: Session, call: Call)
    requires s.conn.Some? && EffectOf(s, call).Some?
    ensures SameBooks(s, EffectOf(s, call).value.before) && EffectOf(s, call).value.before.closed == s.closed
  {
  }

  /** A dispatched request is in flight or refused at once. */
  lemma DispatchedBalanced(s: Session, id: string, call: Call, fits: bool, x: string)
    requires s.conn.Some? && !s.closed && id !in s.inFlight
    requires Responses(s.sent, x) + (if x in s.inFlight then 1 else 0) + (if x == id then 1 else 0) == s.asked[x] + s.strays[x]
    ensures Balanced(Dispatched(s, id, call, fits), x)
  {
    match EffectOf(s, call) {
      case None => SentBalanced(s, Response(id, Refused), fits, x);
      case Some(effect) => EffectBooks(s, call);
    }
  }

  lemma RequestedBalanced(s: Session, id: string, call: Option<Call>, now: int, fits: bool, x: string)
    requires Balanced(s, x) && !s.closed
    ensures Balanced(Requested(s, id, call, now, fits), x)
  {
    var t := Noted(s, id, call, now);
    if !Passes(s.bucket, now) {
      ClosedKeeps(t);
    } else if WindowFull(s, id) {
      SentBalanced(if Owed(s, call) then t else t.(strays := s.strays + multiset{id}), Response(id, TooMany), fits, x);
    } else if Owed(s, call) {
      DispatchedBalanced(t, id, call.value, fits, x);
    }
  }

  lemma TakenBooks(s: Session, outcome: Outcome)
    ensures SameBooks(s, Taken(s, outcome)) && Taken(s, outcome).closed == s.closed
  {
  }

  lemma AnsweredBalanced(s: Session, id: string, outcome: Outcome, fits: bool, x: string)
    requires Balanced(s, x) && id in s.inFlight
    ensures Balanced(Answered(s, id, outcome, fits), x)
  {
    var t, f := Taken(s, outcome), Response(id, ReplyTo(outcome));
    TakenBooks(s, outcome);
    ResponsesLast(t.sent, f, x);
    ClosedKeeps(t);
  }

  lemma MessageBalanced(s: Session, msg: Incoming, now: int, fits: bool, x: string)
    requires Balanced(s, x)
    ensures Balanced(Received(s, msg, now, fits), x)
  {
    if !s.closed && msg.Request? {
      RequestedBalanced(s, msg.id, msg.call, now, fits, x);
    } else {
      ClosedKeeps(s);
    }
  }

  lemma StepBalanced(s: Session, e: Event, x: string)
    requires Balanced(s, x) && Possible(s, e)
    ensures Balanced(Step(s, e), x)
  {
    match e
    case Receive(msg, now, fits) => MessageBalanced(s, msg, now, fits, x);
    case Settled(id, outcome, fits) => AnsweredBalanced(s, id, outcome, fits, x);
    case HostKeyOffered(fingerprint, challenge, fits) => OfferedBalanced(s, fingerprint, challenge, fits, x);
    case ChallengeTimedOut(challenge) =>
    case Connected(conn, fits) => ConnectedBalanced(s, conn, fits, x);
    case ShellOutput(fits) => SentBalanced(s, ShellDataFrame, fits, x);
    case SocketClosed => ClosedKeeps(s);
    case Terminated(_) => ClosedKeeps(s);
  }

  lemma OfferedBalanced(s: Session, fingerprint: string, challenge: string, fits: bool, x: string)
    requires Balanced(s, x)
    ensures Balanced(Offered(s, fingerprint, challenge, fits), x)
  {
    SentBalanced(s.(blocked := true), MismatchFrame, fits, x);
    SentBalanced(Sent(s.(blocked := true), MismatchFrame, fits), StateFrame("error"), true, x);
    SentBalanced(s.(pending := Some(challenge)), HostKeyFrame(challenge), fits, x);
  }

  lemma ConnectedBalanced(s: Session, conn: Option<int>, fits: bool, x: string)
    requires Balanced(s, x)
    ensures Balanced(Opened(s, conn, fits), x)
  {
    SentBalanced(s.(conn := conn), StateFrame("ready"), fits, x);
    SentBalanced(s, StateFrame("error"), fits, x);
    ClosedKeeps(if s.blocked then s else Sent(s, StateFrame("error"), fits));
  }

  // ---- runs ----

  lemma RequestedWindow(s: Session, id: string, call: Option<Call>, now: int, fits: bool)
    ensures var w := Requested(s, id, call, now, fits).inFlight;
            w == s.inFlight || (|s.inFlight| < MAX_IN_FLIGHT_REQUESTS && call.Some? && w == s.inFlight[id := call.value])
  {
    var t := Noted(s, id, call, now);
    ClosedKeeps(t);
    ClosedKeeps(t.(strays := s.strays + multiset{id}));
  }

  lemma OtherWindow(s: Session, e: Event)
    requires !e.Receive? && !e.Settled?
    ensures Step(s, e).inFlight == s.inFlight
  {
    match e
    case HostKeyOffered(fingerprint, challenge, fits) =>
      ClosedKeeps(s.(blocked := true));
      ClosedKeeps(Sent(s.(blocked := true), MismatchFrame, fits));
      ClosedKeeps(s.(pending := Some(challenge)));
    case ChallengeTimedOut(challenge) =>
    case Connected(conn, fits) =>
      ClosedKeeps(s.(conn := conn));
      ClosedKeeps(s);
      ClosedKeeps(Sent(s, StateFrame("error"), fits));
    case ShellOutput(fits) => ClosedKeeps(s);
    case SocketClosed => ClosedKeeps(s);
    case Terminated(_) => ClosedKeeps(s);
  }

  lemma OtherMessageWindow(s: Session, msg: Incoming, now: int, fits: bool)
    requires !msg.Request?
    ensures Received(s, msg, now, fits).inFlight == s.inFlight
  {
    ClosedKeeps(s);
  }

  lemma AnsweredWindow(s: Session, id: string, outcome: Outcome, fits: bool)
    ensures Answered(s, id, outcome, fits).inFlight == s.inFlight - {id}
  {
    TakenBooks(s, outcome);
    ClosedKeeps(Taken(s, outcome));
  }

  lemma MessageWindow(s: Session, msg: Incoming, now: int, fits: bool)
    requires |s.inFlight| <= MAX_IN_FLIGHT_REQUESTS
    ensures |Received(s, msg, now, fits).inFlight| <= MAX_IN_FLIGHT_REQUESTS
  {
    if s.closed {
    } else if msg.Request? {
      RequestedWindow(s, msg.id, msg.call, now, fits);
    } else {
      OtherMessageWindow(s, msg, now, fits);
    }
  }

  lemma StepWindow(s: Session, e: Event)
    requires |s.inFlight| <= MAX_IN_FLIGHT_REQUESTS
    ensures |Step(s, e).inFlight| <= MAX_IN_FLIGHT_REQUESTS
  {
    match e
    case Receive(msg, now, fits) => MessageWindow(s, msg, now, fits);
    case Settled(id, outcome, fits) =>
      AnsweredWindow(s, id, outcome, fits);
      SmallerMap(s.inFlight - {id}, s.inFlight);
    case _ => OtherWindow(s, e);
  }

  lemma SmallerMap<V>(a: map<string, V>, b: map<string, V>)
    requires a.Keys <= b.Keys
    ensures |a| <= |b|
  {
    assert b.Keys == a.Keys + (b.Keys - a.Keys);
    assert |a| == |a.Keys| && |b| == |b.Keys|;
  }

  /** In every run: at most 4 requests in flight, handles owned, responses balanced. */
  lemma {:induction false} RunKeeps(s: Session, events: seq<Event>, t: Session)
    requires Inv(s) && Runs(s, events, t)
    ensures Inv(t)
    decreases |events|
  {
    if events != [] {
      StepWindow(s, events[0]);
      StepOwned(s, events[0]);
      forall id ensures Balanced(Step(s, events[0]), id) { StepBalanced(s, events[0], id); }
      RunKeeps(Step(s, events[0]), events[1..], t);
    }
  }

  lemma FreshOk(expected: Option<string>, now: int)
    ensures Inv(Fresh(expected, now))
  {
    forall id ensures Balanced(Fresh(expected, now), id) {
      ResponsesLast([], StateFrame("connecting"), id);
    }
  }

  /** From the start: whatever the messages and the engine do, the session keeps its promises. */
  lemma SessionIsSafe(expected: Option<string>, now: int, events: seq<Event>, s: Session)
    requires Runs(Fresh(expected, now), events, s)
    ensures |s.inFlight| <= 4
    ensures CallsOwned(s)
    ensures forall id :: Balanced(s, id)
  {
    FreshOk(expected, now);
    RunKeeps(Fresh(expected, now), events, s);
  }

  lemma ClosedAnswers(s: Session, id: string, outcome: Outcome, fits: bool)
    requires s.closed
    ensures var t := Answered(s, id, outcome, fits); t.closed && t.sent == s.sent && t.calls == s.calls
  {
  }

  /** Once closed a session stays closed, sends no frame and makes no engine call. */
  lemma ClosedIsSilent(s: Session, e: Event)
    requires s.closed
    ensures Step(s, e).closed && Step(s, e).sent == s.sent && Step(s, e).calls == s.calls
  {
    match e
    case Receive(_, _, _) =>
    case Settled(id, outcome, fits) => ClosedAnswers(s, id, outcome, fits);
    case HostKeyOffered(_, _, _) =>
    case ChallengeTimedOut(_) =>
    case Connected(_, _) =>
    case ShellOutput(_) =>
    case SocketClosed =>
    case Terminated(_) =>
  }

  lemma {:induction false} ClosedForGood(s: Session, events: seq<Event>, t: Session)
    requires s.closed && Runs(s, events, t)
    ensures t.closed && t.sent == s.sent && t.calls == s.calls
    decreases |events|
  {
    if events != [] {
      ClosedIsSilent(s, events[0]);
      ClosedForGood(Step(s, events[0]), events[1..], t);
    }
  }

  /**
   A completion on an open session is answered at once, under its own id: as a failure exactly when the engine
   threw or gave too much. An answer too large for a frame ends the session instead.
   */
  lemma CompletionIsAnswered(s: Session, id: string, outcome: Outcome, fits: bool)
    requires !s.closed && Possible(s, Settled(id, outcome, fits))
    ensures var t, failed := Step(s, Settled(id, outcome, fits)),
                             outcome.Threw? || (outcome.Chunk? && outcome.size > SFTP_CHUNK_BYTES);
            && id !in t.inFlight && t.closed == !fits
            && t.sent == (if fits then s.sent + [Response(id, if failed then Refused else Result)] else s.sent)
            && (fits ==> t.calls == s.calls) && (!fits ==> SocketClose(1009) in t.calls)
  {
    TakenBooks(s, outcome);
    if !fits { ClosedSaysWhy(Taken(s, outcome), TOO_LARGE); }
  }

  lemma ClosedSaysWhy(s: Session, code: nat)
    requires !s.closed
    ensures SocketClose(code) in Closed(s, Some(code)).calls
  {
    var calls := Closed(s, Some(code)).calls;
    assert calls[|calls| - 1] == SocketClose(code);
  }

  /**
   The first request beyond the rate ends the session: no frame is sent, and the only outward calls are those of
   the close, with the code for the exceeded rate. The request itself never reaches the engine.
   */
  lemma RefusalEnds(s: Session, id: string, call: Option<Call>, now: int, fits: bool)
    requires !s.closed && !Passes(s.bucket, now)
    ensures var t := Step(s, Receive(Request(id, call), now, fits));
            && t.closed && t.inFlight == s.inFlight && t.sent == s.sent
            && t.calls == s.calls + ClosingCalls(s) + [TransportClose, SocketClose(1008)]
  {
    ClosedKeeps(Noted(s, id, call, now));
    assert OuterCalls(Some(RATE_EXCEEDED)) == [TransportClose, SocketClose(RATE_EXCEEDED)];
  }

  // ---- the rate limit over a run ----

  function RequestTimes(events: seq<Event>): seq<int> {
    if events == [] then []
    else
      var last := events[|events| - 1];
      RequestTimes(events[..|events| - 1]) + (if last.Receive? && last.msg.Request? then [last.now] else [])
  }

  ghost predicate BucketFollows(s: Session, e: Event, t: Session) {
    if e.Receive? && e.msg.Request? then Passes(s.bucket, e.now) && t.bucket == Consumed(s.bucket, e.now)
    else t.bucket == s.bucket
  }

  lemma MessageBucket(s: Session, msg: Incoming, now: int, fits: bool)
    requires !s.closed && !Received(s, msg, now, fits).closed
    ensures BucketFollows(s, Receive(msg, now, fits), Received(s, msg, now, fits))
  {
    if msg.Request? {
      RequestedBucket(s, msg.id, msg.call, now, fits);
    } else {
      ClosedKeeps(s);
    }
  }

  lemma StepBucket(s: Session, e: Event)
    requires !s.closed && !Step(s, e).closed
    ensures BucketFollows(s, e, Step(s, e))
  {
    match e
    case Receive(msg, now, fits) => MessageBucket(s, msg, now, fits);
    case Settled(id, outcome, fits) => AnsweredBucket(s, id, outcome, fits);
    case HostKeyOffered(_, _, _) => OtherBucket(s, e);
    case ChallengeTimedOut(_) =>
    case Connected(conn, fits) => OpenedBucket(s, conn, fits);
    case ShellOutput(_) =>
    case SocketClosed => ClosedKeeps(s);
    case Terminated(_) => ClosedKeeps(s);
  }

  lemma OpenedBucket(s: Session, conn: Option<int>, fits: bool)
    requires !Opened(s, conn, fits).closed
    ensures Opened(s, conn, fits).bucket == s.bucket
  {
    ClosedKeeps(if s.blocked then s else Sent(s, StateFrame("error"), fits));
  }

  lemma OtherBucket(s: Session, e: Event)
    requires e.HostKeyOffered? && !Step(s, e).closed
    ensures Step(s, e).bucket == s.bucket
  {
  }

  lemma RequestedBucket(s: Session, id: string, call: Option<Call>, now: int, fits: bool)
    requires !Requested(s, id, call, now, fits).closed
    ensures Passes(s.bucket, now) && Requested(s, id, call, now, fits).bucket == Consumed(s.bucket, now)
  {
    var t := Noted(s, id, call, now);
    ClosedKeeps(t);
    ClosedKeeps(t.(strays := s.strays + multiset{id}));
    if Passes(s.bucket, now) && !WindowFull(s, id) && Owed(s, call) && EffectOf(t, call.value).Some? {
      EffectBucket(t, call.value);
    }
  }

  lemma EffectBucket(s: Session, call: Call)
    requires s.conn.Some? && EffectOf(s, call).Some?
    ensures EffectOf(s, call).value.before.bucket == s.bucket
  {
  }

  lemma AnsweredBucket(s: Session, id: string, outcome: Outcome, fits: bool)
    requires !Answered(s, id, outcome, fits).closed
    ensures Answered(s, id, outcome, fits).bucket == s.bucket
  {
    ClosedKeeps(Taken(s, outcome));
  }

  lemma {:induction false} RunsSplit(s: Session, events: seq<Event>, t: Session) returns (u: Session)
    requires events != [] && Runs(s, events, t)
    ensures Runs(s, events[..|events| - 1], u)
    ensures Possible(u, events[|events| - 1]) && t == Step(u, events[|events| - 1])
    decreases |events|
  {
    if |events| == 1 {
      u := s;
    } else {
      u := RunsSplit(Step(s, events[0]), events[1..], t);
      assert events[1..][..|events| - 2] == events[..|events| - 1][1..];
    }
  }

  /** A session still open has passed every one of its requests through the bucket. */
  lemma {:induction false} OpenSessionPassed(s: Session, events: seq<Event>, t: Session)
    requires Runs(s, events, t) && !t.closed
    ensures t.bucket == After(s.bucket, RequestTimes(events))
    ensures AllPass(s.bucket, RequestTimes(events))
    decreases |events|
  {
    if events != [] {
      var n := |events| - 1;
      var u := RunsSplit(s, events, t);
      if u.closed {
        ClosedIsSilent(u, events[n]);
      }
      StepBucket(u, events[n]);
      OpenSessionPassed(s, events[..n], u);
      var before, times := RequestTimes(events[..n]), RequestTimes(events);
      if times != before {
        assert times[..|before|] == before;
        forall i | 0 <= i < |times| ensures Passes(After(s.bucket, times[..i]), times[i]) {
          if i < |before| {
            assert times[..i] == before[..i] && times[i] == before[i];
          }
        }
      }
    }
  }

  /** Requests j - i of an open session that fall into [from, to] are at most 40 + 20 (to - from) / 1000. */
  lemma SessionRateBound(expected: Option<string>, start: int, events: seq<Event>, t: Session, i: nat, j: nat, from: int, to: int)
    requires Runs(Fresh(expected, start), events, t) && !t.closed
    requires Ordered(Bucket(BURST, start), RequestTimes(events))
    requires i < j <= |RequestTimes(events)| && from <= RequestTimes(events)[i] && RequestTimes(events)[j - 1] <= to
    ensures (j - i) * 1000 <= 40 * 1000 + 20 * (to - from)
  {
    OpenSessionPassed(Fresh(expected, start), events, t);
    IntervalBound(Bucket(BURST, start), RequestTimes(events), i, j, from, to);
  }

  // ---- host keys ----

  ghost predicate NoAcceptance(s: Session, t: Session) {
    forall v :: v in t.verdicts && v.accepted ==> v in s.verdicts
  }

  lemma ClosedAccepts(s: Session)
    ensures forall code :: NoAcceptance(s, Closed(s, code))
  {
  }

  lemma SentAccepts(s: Session, f: Frame, fits: bool)
    ensures NoAcceptance(s, Sent(s, f, fits))
  {
    if !s.closed && !fits { ClosedAccepts(s); }
  }

  lemma DispatchedAccepts(s: Session, id: string, call: Call, fits: bool)
    requires s.conn.Some?
    ensures NoAcceptance(s, Dispatched(s, id, call, fits))
  {
    SentAccepts(s, Response(id, Refused), fits);
    if EffectOf(s, call).Some? {
      assert EffectOf(s, call).value.before.verdicts == s.verdicts;
    }
  }

  lemma RequestedAccepts(s: Session, id: string, call: Option<Call>, now: int, fits: bool)
    ensures NoAcceptance(s, Requested(s, id, call, now, fits))
  {
    var t := Noted(s, id, call, now);
    assert t.verdicts == s.verdicts;
    if !Passes(s.bucket, now) {
      ClosedAccepts(t);
    } else if WindowFull(s, id) {
      SentAccepts(if Owed(s, call) then t else t.(strays := s.strays + multiset{id}), Response(id, TooMany), fits);
    } else if Owed(s, call) {
      DispatchedAccepts(t, id, call.value, fits);
    }
  }

  lemma AnsweredAccepts(s: Session, id: string, outcome: Outcome, fits: bool)
    ensures NoAcceptance(s, Answered(s, id, outcome, fits))
  {
    assert Taken(s, outcome).verdicts == s.verdicts;
    SentAccepts(Taken(s, outcome), Response(id, ReplyTo(outcome)), fits);
  }

  lemma OfferedAccepts(s: Session, fingerprint: string, challenge: string, fits: bool)
    ensures NoAcceptance(s, Offered(s, fingerprint, challenge, fits))
  {
    var blocked := s.(blocked := true);
    SentAccepts(blocked, MismatchFrame, fits);
    SentAccepts(Sent(blocked, MismatchFrame, fits), StateFrame("error"), true);
    SentAccepts(s.(pending := Some(challenge)), HostKeyFrame(challenge), fits);
  }

  lemma OpenedAccepts(s: Session, conn: Option<int>, fits: bool)
    ensures NoAcceptance(s, Opened(s, conn, fits))
  {
    SentAccepts(s.(conn := conn), StateFrame("ready"), fits);
    SentAccepts(s, StateFrame("error"), fits);
    ClosedAccepts(if s.blocked then s else Sent(s, StateFrame("error"), fits));
  }

  predicate AnswersPending(s: Session, msg: Incoming) {
    msg.HostKeyResponse? && msg.accepted == Some(true) && s.pending == Some(msg.challenge)
  }

  lemma ReceivedAccepts(s: Session, msg: Incoming, now: int, fits: bool)
    requires !AnswersPending(s, msg)
    ensures NoAcceptance(s, Received(s, msg, now, fits))
  {
    ClosedAccepts(s);
    if msg.Request? { RequestedAccepts(s, msg.id, msg.call, now, fits); }
  }

  /** A host key is accepted only by the client's answer to the pending challenge, never by a timeout or a close. */
  lemma AcceptanceIsTheClients(s: Session, e: Event)
    requires !(e.Receive? && AnswersPending(s, e.msg))
    ensures forall v :: v in Step(s, e).verdicts && v !in s.verdicts ==> !v.accepted
  {
    match e
    case Receive(msg, now, fits) => ReceivedAccepts(s, msg, now, fits);
    case Settled(id, outcome, fits) => AnsweredAccepts(s, id, outcome, fits);
    case HostKeyOffered(fingerprint, challenge, fits) => OfferedAccepts(s, fingerprint, challenge, fits);
    case ChallengeTimedOut(_) =>
    case Connected(conn, fits) => OpenedAccepts(s, conn, fits);
    case ShellOutput(fits) => SentAccepts(s, ShellDataFrame, fits);
    case SocketClosed => ClosedAccepts(s);
    case Terminated(_) => ClosedAccepts(s);
  }
}
