/** What each message, answer and offer does to an open session, field by field. */
module SessionEffects {
  import opened Common
  import opened RateLimiter
  import opened SessionModel
  import B = Base64

  // ---- host keys ----

  /** The client's answer to the pending challenge is recorded as it was given: an acceptance as an acceptance. */
  lemma HostKeyAnswer(s: Session, challenge: string, accepted: bool, now: int, fits: bool)
    requires !s.closed && s.pending == Some(challenge)
    ensures Step(s, Receive(HostKeyResponse(challenge, Some(accepted)), now, fits))
         == s.(verdicts := s.verdicts + [Verdict(challenge, accepted)], pending := None)
  {
  }

  /** An answer to another challenge, or one that is neither yes nor no, does nothing. */
  lemma OtherHostKeyAnswer(s: Session, challenge: string, accepted: Option<bool>, now: int, fits: bool)
    requires s.pending != Some(challenge) || accepted == None
    ensures Step(s, Receive(HostKeyResponse(challenge, accepted), now, fits)) == s
  {
  }

  /** What a message decides about the pending challenge. */
  ghost predicate Decides(s: Session, msg: Incoming) {
    msg.HostKeyResponse? && msg.accepted.Some? && s.pending == Some(msg.challenge)
  }

  /**
   As long as the session stays open, a message adds a verdict exactly if it answers the pending challenge, the verdict
   being the client's own; otherwise the challenge stays pending.
   */
  lemma VerdictsExactly(s: Session, msg: Incoming, now: int, fits: bool)
    requires !s.closed && !Step(s, Receive(msg, now, fits)).closed
    ensures var t := Step(s, Receive(msg, now, fits));
            if Decides(s, msg) then t.verdicts == s.verdicts + [Verdict(msg.challenge, msg.accepted.value)] && t.pending == None
            else t.verdicts == s.verdicts && t.pending == s.pending
  {
    if msg.Request? { RequestJudgesNothing(s, msg.id, msg.call, now, fits); }
  }

  lemma DispatchJudgesNothing(s: Session, id: string, call: Call, fits: bool)
    requires s.conn.Some? && !Dispatched(s, id, call, fits).closed
    ensures var t := Dispatched(s, id, call, fits); t.verdicts == s.verdicts && t.pending == s.pending
  {
  }

  lemma RequestJudgesNothing(s: Session, id: string, call: Option<Call>, now: int, fits: bool)
    requires !Requested(s, id, call, now, fits).closed
    ensures var t := Requested(s, id, call, now, fits); t.verdicts == s.verdicts && t.pending == s.pending
  {
    if Passes(s.bucket, now) && !WindowFull(s, id) && Owed(s, call) {
      DispatchJudgesNothing(Noted(s, id, call, now), id, call.value, fits);
    }
  }

  /** A challenge that nobody answers in time is refused. */
  lemma TimeoutRefuses(s: Session, challenge: string)
    ensures Step(s, ChallengeTimedOut(challenge)) ==
            if s.pending == Some(challenge) then s.(verdicts := s.verdicts + [Verdict(challenge, false)], pending := None) else s
  {
  }

  /** An offered key: known and right, known and wrong, or left to the client under a new challenge. */
  lemma OfferExactly(s: Session, fingerprint: string, challenge: string)
    requires !s.closed
    ensures Step(s, HostKeyOffered(fingerprint, challenge, true)) ==
            match s.expected
            case None => s.(pending := Some(challenge), sent := s.sent + [HostKeyFrame(challenge)])
            case Some(known) =>
              if known == fingerprint then s
              else s.(blocked := true, sent := s.sent + [MismatchFrame, StateFrame("error")])
  {
    assert s.sent + [MismatchFrame] + [StateFrame("error")] == s.sent + [MismatchFrame, StateFrame("error")];
  }

  // ---- messages about the shell ----

  lemma ShellMessages(s: Session, h: int, text: string, cols: int, rows: int, now: int, fits: bool)
    requires !s.closed && s.shell == Some(h)
    ensures Step(s, Receive(ShellWriteMessage(text), now, fits)) == s.(calls := s.calls + [ShellWrite(h, text)])
    ensures Step(s, Receive(ShellResizeMessage(cols, rows), now, fits)) == s.(calls := s.calls + [ShellResize(h, cols, rows)])
    ensures Step(s, Receive(ShellCloseMessage, now, fits)) == s.(calls := s.calls + [ShellClose(h)], shell := None)
  {
  }

  lemma NoShell(s: Session, msg: Incoming, now: int, fits: bool)
    requires s.shell == None && (msg.ShellWriteMessage? || msg.ShellResizeMessage? || msg.ShellCloseMessage?)
    ensures Step(s, Receive(msg, now, fits)) == s
  {
  }

  /** A close: the pending challenge is refused, then shell, connection, every handle held, the transport and the socket are closed. */
  ghost predicate Ends(s: Session, t: Session, code: nat) {
    && t.closed && t.sent == s.sent && t.shell == None && t.conn == None && t.pending == None && t.readers == [] && t.writers == []
    && t.verdicts == s.verdicts + (if s.pending.Some? then [Verdict(s.pending.value, false)] else [])
    && t.calls == s.calls
                  + (if s.shell.Some? then [ShellClose(s.shell.value)] else [])
                  + (if s.conn.Some? then [Disconnect(s.conn.value)] else [])
                  + seq(|s.readers|, i requires 0 <= i < |s.readers| => ReadClose(s.readers[i]))
                  + seq(|s.writers|, i requires 0 <= i < |s.writers| => WriteClose(s.writers[i]))
                  + [TransportClose, SocketClose(code)]
  }

  lemma Regrouped(a: seq<EngineCall>, b: seq<EngineCall>, c: seq<EngineCall>, d: seq<EngineCall>, e: seq<EngineCall>, f: seq<EngineCall>)
    ensures a + (b + c + d + e) + f == a + b + c + d + e + f
  {
  }

  lemma CloseEnds(s: Session, code: nat)
    requires !s.closed
    ensures Ends(s, Closed(s, Some(code)), code)
  {
    var shell := if s.shell.Some? then [ShellClose(s.shell.value)] else [];
    var conn := if s.conn.Some? then [Disconnect(s.conn.value)] else [];
    var outer := OuterCalls(Some(code));
    assert outer == [TransportClose, SocketClose(code)];
    assert ReadCloses(s.readers) == seq(|s.readers|, i requires 0 <= i < |s.readers| => ReadClose(s.readers[i]));
    assert WriteCloses(s.writers) == seq(|s.writers|, i requires 0 <= i < |s.writers| => WriteClose(s.writers[i]));
    Regrouped(s.calls, shell, conn, ReadCloses(s.readers), WriteCloses(s.writers), outer);
  }

  /** Garbage is dropped; a message that is too large ends the session with code 1009, a disconnect with 1000. */
  lemma OtherMessages(s: Session, now: int, fits: bool)
    requires !s.closed
    ensures Step(s, Receive(Garbage, now, fits)) == s
    ensures Ends(s, Step(s, Receive(TooLarge, now, fits)), 1009)
    ensures Ends(s, Step(s, Receive(DisconnectMessage, now, fits)), 1000)
  {
    CloseEnds(s, 1009);
    CloseEnds(s, 1000);
  }

  // ---- requests ----

  /** The session takes a request with this id at this time: open, connected, within the rate and the window. */
  ghost predicate Takes(s: Session, conn: int, id: string, now: int) {
    !s.closed && s.conn == Some(conn) && Passes(s.bucket, now) && |s.inFlight| < 4 && id !in s.inFlight
  }

  /** The request is at the engine: its own call has been made, and its id is in flight; nothing is answered yet. */
  ghost predicate Started(s: Session, t: Session, id: string, call: Call, made: seq<EngineCall>, now: int) {
    && !t.closed && t.conn == s.conn && t.calls == s.calls + made && t.sent == s.sent
    && t.inFlight == s.inFlight[id := call] && t.bucket == Consumed(s.bucket, now)
    && t.verdicts == s.verdicts && t.pending == s.pending
  }

  /** The request is answered as failed at once, without any engine call. */
  ghost predicate RefusedAtOnce(s: Session, t: Session, id: string, now: int) {
    t == s.(sent := s.sent + [Response(id, Refused)], bucket := Consumed(s.bucket, now), asked := s.asked + multiset{id})
  }

  function AfterRequest(s: Session, id: string, call: Call, now: int): Session {
    Step(s, Receive(Request(id, Some(call)), now, true))
  }

  /** Plain requests and those that open something: one engine call on the connection, with the arguments as given. */
  lemma PlainStarts(s: Session, conn: int, id: string, name: string, arguments: seq<string>, now: int)
    requires Takes(s, conn, id, now)
    ensures var t := AfterRequest(s, id, Plain(name, arguments), now);
            && Started(s, t, id, Plain(name, arguments), [OnConnection(conn, name, arguments)], now)
            && t.shell == s.shell && t.readers == s.readers && t.writers == s.writers
  {
  }

  lemma OpensStart(s: Session, conn: int, id: string, path: string, now: int)
    requires Takes(s, conn, id, now)
    ensures var t := AfterRequest(s, id, OpenRead(path), now);
            && Started(s, t, id, OpenRead(path), [ReadOpen(conn, path)], now)
            && t.shell == s.shell && t.readers == s.readers && t.writers == s.writers
    ensures var t := AfterRequest(s, id, OpenWrite(path), now);
            && Started(s, t, id, OpenWrite(path), [WriteOpen(conn, path)], now)
            && t.shell == s.shell && t.readers == s.readers && t.writers == s.writers
  {
  }

  /** Opening a shell closes the one that is open. */
  lemma ShellStarts(s: Session, conn: int, id: string, cols: int, rows: int, now: int)
    requires Takes(s, conn, id, now)
    ensures var t, shell := AfterRequest(s, id, OpenShell(cols, rows), now), ShellOpen(conn, cols, rows);
            && Started(s, t, id, OpenShell(cols, rows),
                       if s.shell.Some? then [ShellClose(s.shell.value), shell] else [shell], now)
            && t.shell == None && t.readers == s.readers && t.writers == s.writers
  {
    var shell := ShellOpen(conn, cols, rows);
    if s.shell.Some? {
      assert s.calls + [ShellClose(s.shell.value)] + [shell] == s.calls + [ShellClose(s.shell.value), shell];
    }
  }

  lemma {:induction false} WithoutExactly(hs: seq<int>, h: int)
    ensures forall x :: x in Without(hs, h) <==> x in hs && x != h
    decreases |hs|
  {
    if hs != [] {
      WithoutExactly(hs[1..], h);
      assert hs == [hs[0]] + hs[1..];
    }
  }

  /** A read handle of the session: chunks are read from it, and a close gives it up before the engine is asked. */
  lemma ReadsStart(s: Session, conn: int, id: string, h: int, now: int)
    requires Takes(s, conn, id, now) && h in s.readers
    ensures var t := AfterRequest(s, id, ReadChunk(h), now);
            && Started(s, t, id, ReadChunk(h), [ChunkRead(h, 524288)], now) && t.readers == s.readers && t.writers == s.writers
    ensures var t := AfterRequest(s, id, CloseRead(h), now);
            && Started(s, t, id, CloseRead(h), [ReadClose(h)], now) && t.writers == s.writers
            && forall x :: x in t.readers <==> x in s.readers && x != h
  {
    WithoutExactly(s.readers, h);
  }

  lemma WritesStart(s: Session, conn: int, id: string, h: int, data: B.Bytes, now: int)
    requires Takes(s, conn, id, now) && h in s.writers && |data| <= 524288
    ensures var t := AfterRequest(s, id, WriteChunk(h, Some(data)), now);
            && Started(s, t, id, WriteChunk(h, Some(data)), [ChunkWrite(h, data)], now)
            && t.readers == s.readers && t.writers == s.writers
    ensures var t := AfterRequest(s, id, CloseWrite(h), now);
            && Started(s, t, id, CloseWrite(h), [WriteClose(h)], now) && t.readers == s.readers
            && forall x :: x in t.writers <==> x in s.writers && x != h
  {
    WithoutExactly(s.writers, h);
  }

  /** What the session refuses on its own: handles it does not hold, chunks that do not decode or are too large, the unknown. */
  ghost predicate Unserved(s: Session, call: Call) {
    match call
    case ReadChunk(h) => h !in s.readers
    case CloseRead(h) => h !in s.readers
    case WriteChunk(h, data) => h !in s.writers || data == None || |data.value| > 524288
    case CloseWrite(h) => h !in s.writers
    case Unsupported => true
    case _ => false
  }

  lemma UnservedIsRefused(s: Session, conn: int, id: string, call: Call, now: int)
    requires Takes(s, conn, id, now) && Unserved(s, call)
    ensures RefusedAtOnce(s, AfterRequest(s, id, call, now), id, now)
  {
  }

  /** With four requests in flight, or this id among them, a request is turned away and the ones in flight stay. */
  lemma WindowTurnsAway(s: Session, id: string, call: Option<Call>, now: int)
    requires !s.closed && Passes(s.bucket, now) && (|s.inFlight| >= 4 || id in s.inFlight)
    ensures var t := Step(s, Receive(Request(id, call), now, true));
            && t.sent == s.sent + [Response(id, TooMany)] && t.calls == s.calls && t.inFlight == s.inFlight && !t.closed
            && t.bucket == Consumed(s.bucket, now)
  {
  }

  /** Before there is a connection, or without a method, a request costs its token and is dropped without an answer. */
  lemma UnownedIsDropped(s: Session, id: string, call: Option<Call>, now: int, fits: bool)
    requires !s.closed && (s.conn == None || call == None)
    requires Passes(s.bucket, now) && |s.inFlight| < 4 && id !in s.inFlight
    ensures Step(s, Receive(Request(id, call), now, fits)) == s.(bucket := Consumed(s.bucket, now))
  {
  }

  // ---- answers ----

  /** An opened shell or handle is kept for later requests, a failed or finished call keeps nothing; the id is free again. */
  lemma AnswerKept(s: Session, id: string, outcome: Outcome)
    requires !s.closed && Possible(s, Settled(id, outcome, true))
    ensures var t := Step(s, Settled(id, outcome, true));
            && t.shell == (if outcome.ShellOpened? then Some(outcome.h) else s.shell)
            && t.readers == (if outcome.ReadOpened? then s.readers + [outcome.h] else s.readers)
            && t.writers == (if outcome.WriteOpened? then s.writers + [outcome.h] else s.writers)
            && t.inFlight == s.inFlight - {id} && t.conn == s.conn && t.calls == s.calls && !t.closed
            && t.verdicts == s.verdicts && t.pending == s.pending && t.bucket == s.bucket
  {
  }

  /** The two ends of start: ready on a connection, or an error - told once - and the close with code 1011. */
  lemma ConnectExactly(s: Session, conn: Option<int>)
    requires !s.closed
    ensures var t := Step(s, Connected(conn, true));
            if conn.Some? then t == s.(conn := conn, sent := s.sent + [StateFrame("ready")])
            else Ends(if s.blocked then s else s.(sent := s.sent + [StateFrame("error")]), t, 1011)
  {
    CloseEnds(if s.blocked then s else s.(sent := s.sent + [StateFrame("error")]), 1011);
  }

  /** Output of the shell goes out as it comes. */
  lemma ShellOutputSent(s: Session)
    requires !s.closed
    ensures Step(s, ShellOutput(true)) == s.(sent := s.sent + [ShellDataFrame])
    ensures Ends(s, Step(s, ShellOutput(false)), 1009)
  {
    CloseEnds(s, 1009);
  }
}
