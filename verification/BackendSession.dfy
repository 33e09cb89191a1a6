/** The session object: its fields, and its methods step by step, against the state machine. */
module BackendSession {
  import opened Common
  import opened RateLimiter
  import opened SessionModel

  class BackendSshSession {
    const expectedFingerprint: Option<string>
    var requestTokens: int
    var lastTokenRefillAt: int
    var closed: bool
    var connId: Option<int>
    var shellHandle: Option<int>
    var pendingChallenge: Option<string>
    var hostKeyBlocked: bool
    var inFlightRequests: map<string, Call>
    var readHandles: seq<int>
    var writeHandles: seq<int>
    var sent: seq<Frame>
    var calls: seq<EngineCall>
    var verdicts: seq<Verdict>
    ghost var openedReads: set<int>
    ghost var openedWrites: set<int>
    ghost var asked: multiset<string>
    ghost var strays: multiset<string>

    ghost function State(): Session
      reads this
    {
      Session(expectedFingerprint, Bucket(requestTokens, lastTokenRefillAt), closed, connId, shellHandle, pendingChallenge,
              hostKeyBlocked, inFlightRequests, readHandles, writeHandles, sent, calls, verdicts,
              openedReads, openedWrites, asked, strays)
    }

    constructor (expected: Option<string>, now: int)
      ensures State() == Fresh(expected, now)
    {
      expectedFingerprint := expected;
      requestTokens, lastTokenRefillAt := BURST, now;
      closed, hostKeyBlocked := false, false;
      connId, shellHandle, pendingChallenge := None, None, None;
      inFlightRequests, readHandles, writeHandles := map[], [], [];
      sent, calls, verdicts := [StateFrame("connecting")], [], [];
      openedReads, openedWrites, asked, strays := {}, {}, multiset{}, multiset{};
    }

    method CloseShell()
      modifies this
      ensures State() == ShellClosed(old(State()))
    {
      if shellHandle.None? { return; }
      calls := calls + [ShellClose(shellHandle.value)];
      shellHandle := None;
    }

    method Judge(accepted: bool)
      modifies this
      ensures State() == Judged(old(State()), accepted)
    {
      if pendingChallenge.None? { return; }
      verdicts := verdicts + [Verdict(pendingChallenge.value, accepted)];
      pendingChallenge := None;
    }

    method DisconnectEngine()
      modifies this
      ensures State() == Disconnected(old(State()))
    {
      if connId.None? { return; }
      calls := calls + [Disconnect(connId.value)];
      connId := None;
    }

    method Close(code: Option<nat>)
      modifies this
      ensures State() == Closed(old(State()), code)
    {
      if closed { return; }
      ClosedInSteps(State(), code);
      closed := true;
      Judge(false);
      CloseShell();
      DisconnectEngine();
      CloseHandles();
      CloseOutside(code);
    }

    method CloseOutside(code: Option<nat>)
      modifies this
      ensures State() == OuterClosed(old(State()), code)
    {
      calls := calls + [TransportClose];
      if code.Some? { calls := calls + [SocketClose(code.value)]; }
    }

    method CloseHandles()
      modifies this
      ensures State() == HandlesClosed(old(State()))
    {
      CloseReadHandles();
      for i := 0 to |writeHandles|
        invariant writeHandles == old(writeHandles) && State() == old(State()).(calls := calls, readers := [])
        invariant calls == old(calls) + ReadCloses(old(readHandles)) + WriteCloses(writeHandles[..i])
      {
        assert WriteCloses(writeHandles[..i + 1]) == WriteCloses(writeHandles[..i]) + [WriteClose(writeHandles[i])];
        calls := calls + [WriteClose(writeHandles[i])];
      }
      assert writeHandles[..|writeHandles|] == writeHandles;
      writeHandles := [];
    }

    method CloseReadHandles()
      modifies this
      ensures State() == old(State()).(calls := old(calls) + ReadCloses(old(readHandles)), readers := [])
    {
      for i := 0 to |readHandles|
        invariant readHandles == old(readHandles) && State() == old(State()).(calls := calls)
        invariant calls == old(calls) + ReadCloses(readHandles[..i])
      {
        assert ReadCloses(readHandles[..i + 1]) == ReadCloses(readHandles[..i]) + [ReadClose(readHandles[i])];
        calls := calls + [ReadClose(readHandles[i])];
      }
      assert readHandles[..|readHandles|] == readHandles;
      readHandles := [];
    }

    method Send(f: Frame, fits: bool)
      modifies this
      ensures State() == Sent(old(State()), f, fits)
    {
      if closed { return; }
      if !fits {
        Close(Some(TOO_LARGE));
        return;
      }
      sent := sent + [f];
    }

    method ConsumeRequestToken(now: int) returns (ok: bool)
      modifies this`requestTokens, this`lastTokenRefillAt
      ensures ok == Passes(old(State()).bucket, now)
      ensures State() == old(State()).(bucket := Consumed(old(State()).bucket, now))
    {
      var elapsed := Max(0, now - lastTokenRefillAt);
      lastTokenRefillAt := now;
      requestTokens := Min(BURST, requestTokens + elapsed * PER_MS);
      if requestTokens < TOKEN { return false; }
      requestTokens := requestTokens - TOKEN;
      ok := true;
    }

    /** The branch of handleRequest for the call, up to its first await: true when an engine call is running. */
    method StartCall(call: Call) returns (running: bool)
      requires connId.Some?
      modifies this
      ensures running <==> EffectOf(old(State()), call).Some?
      ensures State() == if running then Called(EffectOf(old(State()), call).value.before, EffectOf(old(State()), call).value.call)
                         else old(State())
    {
      var conn := connId.value;
      running := true;
      match call {
        case Plain(name, arguments) => calls := calls + [OnConnection(conn, name, arguments)];
        case OpenShell(cols, rows) =>
          CloseShell();
          calls := calls + [ShellOpen(conn, cols, rows)];
        case OpenRead(path) => calls := calls + [ReadOpen(conn, path)];
        case OpenWrite(path) => calls := calls + [WriteOpen(conn, path)];
        case Unsupported => running := false;
        case _ => running := StartHandleCall(call);
      }
    }

    /** Chunk and close requests: only for handles this session holds. */
    method StartHandleCall(call: Call) returns (running: bool)
      requires connId.Some? && (call.ReadChunk? || call.CloseRead? || call.WriteChunk? || call.CloseWrite?)
      modifies this
      ensures running <==> EffectOf(old(State()), call).Some?
      ensures State() == if running then Called(EffectOf(old(State()), call).value.before, EffectOf(old(State()), call).value.call)
                         else old(State())
    {
      match call {
        case ReadChunk(h) =>
          if h !in readHandles { return false; }
          calls := calls + [ChunkRead(h, SFTP_CHUNK_BYTES)];
        case CloseRead(h) =>
          if h !in readHandles { return false; }
          readHandles := Without(readHandles, h);
          calls := calls + [ReadClose(h)];
        case WriteChunk(h, data) =>
          if h !in writeHandles || data.None? || |data.value| > SFTP_CHUNK_BYTES { return false; }
          calls := calls + [ChunkWrite(h, data.value)];
        case CloseWrite(h) =>
          if h !in writeHandles { return false; }
          writeHandles := Without(writeHandles, h);
          calls := calls + [WriteClose(h)];
      }
      running := true;
    }

    method StartRequest(id: string, call: Call, fits: bool)
      requires connId.Some?
      modifies this
      ensures State() == Dispatched(old(State()), id, call, fits)
    {
      var running := StartCall(call);
      if running {
        inFlightRequests := inFlightRequests[id := call];
      } else {
        Send(Response(id, Refused), fits);
      }
    }

    method HandleRequest(id: string, call: Option<Call>, now: int, fits: bool)
      requires !closed
      modifies this
      ensures State() == Requested(old(State()), id, call, now, fits)
    {
      ghost var owed := call.Some? && connId.Some?;
      if owed { asked := asked + multiset{id}; }
      var ok := ConsumeRequestToken(now);
      if !ok {
        Close(Some(RATE_EXCEEDED));
        return;
      }
      if |inFlightRequests| >= MAX_IN_FLIGHT_REQUESTS || id in inFlightRequests {
        if !owed { strays := strays + multiset{id}; }
        Send(Response(id, TooMany), fits);
        return;
      }
      if call.None? || connId.None? { return; }
      StartRequest(id, call.value, fits);
    }

    method HandleMessage(msg: Incoming, now: int, fits: bool)
      modifies this
      ensures State() == Step(old(State()), Receive(msg, now, fits))
    {
      if closed { return; }
      match msg {
        case TooLarge => Close(Some(TOO_LARGE));
        case Garbage =>
        case HostKeyResponse(challenge, accepted) =>
          if pendingChallenge == Some(challenge) && accepted.Some? { Judge(accepted.value); }
        case ShellWriteMessage(text) =>
          if shellHandle.Some? { calls := calls + [ShellWrite(shellHandle.value, text)]; }
        case ShellResizeMessage(cols, rows) =>
          if shellHandle.Some? { calls := calls + [ShellResize(shellHandle.value, cols, rows)]; }
        case ShellCloseMessage => CloseShell();
        case DisconnectMessage => Close(Some(NORMAL));
        case Request(id, call) => HandleRequest(id, call, now, fits);
      }
    }

    method KeepReader(h: int)
      modifies this`readHandles, this`openedReads
      ensures State() == Taken(old(State()), ReadOpened(h))
    {
      readHandles := readHandles + [h];
      openedReads := openedReads + {h};
    }

    method KeepWriter(h: int)
      modifies this`writeHandles, this`openedWrites
      ensures State() == Taken(old(State()), WriteOpened(h))
    {
      writeHandles := writeHandles + [h];
      openedWrites := openedWrites + {h};
    }

    method TakeAnswer(outcome: Outcome)
      modifies this
      ensures State() == Taken(old(State()), outcome)
    {
      match outcome {
        case ShellOpened(h) => shellHandle := Some(h);
        case ReadOpened(h) => KeepReader(h);
        case WriteOpened(h) => KeepWriter(h);
        case _ =>
      }
    }

    /** The continuation of handleRequest after the engine has answered. */
    method Settle(id: string, outcome: Outcome, fits: bool)
      modifies this
      ensures State() == Step(old(State()), Settled(id, outcome, fits))
    {
      TakeAnswer(outcome);
      if outcome.Threw? || (outcome.Chunk? && outcome.size > SFTP_CHUNK_BYTES) {
        Send(Response(id, Refused), fits);
      } else {
        Send(Response(id, Result), fits);
      }
      inFlightRequests := inFlightRequests - {id};
    }

    method ReportMismatch(fits: bool)
      modifies this
      ensures State() == Sent(Sent(old(State()).(blocked := true), MismatchFrame, fits), StateFrame("error"), true)
    {
      hostKeyBlocked := true;
      Send(MismatchFrame, fits);
      Send(StateFrame("error"), true);
    }

    method OpenChallenge(challenge: string, fits: bool)
      modifies this
      ensures State() == Sent(old(State()).(pending := Some(challenge)), HostKeyFrame(challenge), fits)
    {
      pendingChallenge := Some(challenge);
      Send(HostKeyFrame(challenge), fits);
    }

    /** None is a decision left to the client. */
    method VerifyHostKey(fingerprint: string, challenge: string, fits: bool) returns (known: Option<bool>)
      modifies this
      ensures State() == Step(old(State()), HostKeyOffered(fingerprint, challenge, fits))
      ensures known == if expectedFingerprint.None? then None else Some(expectedFingerprint == Some(fingerprint))
    {
      if expectedFingerprint.None? {
        OpenChallenge(challenge, fits);
        return None;
      }
      if expectedFingerprint.value == fingerprint { return Some(true); }
      ReportMismatch(fits);
      known := Some(false);
    }

    method ChallengeTimeout(challenge: string)
      modifies this
      ensures State() == Step(old(State()), ChallengeTimedOut(challenge))
    {
      if pendingChallenge == Some(challenge) { Judge(false); }
    }

    method ConnectSucceeded(conn: int, fits: bool)
      modifies this
      ensures State() == Opened(old(State()), Some(conn), fits)
    {
      connId := Some(conn);
      Send(StateFrame("ready"), fits);
    }

    method ConnectFailed(fits: bool)
      modifies this
      ensures State() == Opened(old(State()), None, fits)
    {
      if !hostKeyBlocked { Send(StateFrame("error"), fits); }
      Close(Some(FAILED));
    }

    /** The two ends of start. */
    method ConnectReturned(conn: Option<int>, fits: bool)
      modifies this
      ensures State() == Step(old(State()), Connected(conn, fits))
    {
      match conn {
        case Some(id) => ConnectSucceeded(id, fits);
        case None => ConnectFailed(fits);
      }
    }
  }
}
