/**
 The client's side of the request protocol: numbered requests, and the responses matched
 to them by id. A call is known by its number; `settled` records what its promise came to.
 Sockets are numbered as they are opened; what an earlier socket still delivers is ignored.
 */
module ClientRequests {
  import opened Common
  import opened Text

  /** What a promise comes to: the response's result, the session's refusal, or the loss of the socket. */
  datatype Settlement = Resolved(result: string) | Refused | Dropped

  datatype Client = Client(
    opens: nat, socket: Option<nat>, ready: bool, sequence: nat, pending: map<string, nat>, settled: map<nat, Settlement>)

  const NEW_CLIENT: Client := Client(0, None, false, 0, map[], map[])

  function IdOf(n: nat): string {
    "r" + Decimal(n)
  }

  /** The calls and socket events that touch pending requests. A call says whether the socket is open for sending. */
  datatype Event =
    | Open
    | Ready(socket: nat)
    | Call(sendable: bool)
    | Reply(socket: nat, id: string, result: Option<string>)
    | SessionFailed(socket: nat)
    | SocketClosed(socket: nat)
    | Disconnect
    | Close

  function Opened(c: Client): Client {
    c.(opens := c.opens + 1, socket := Some(c.opens), ready := false)
  }

  function Called(c: Client, sendable: bool): Client {
    if c.socket.None? || !sendable || !c.ready then c
    else c.(sequence := c.sequence + 1, pending := c.pending[IdOf(c.sequence + 1) := c.sequence + 1])
  }

  function SettlementOf(result: Option<string>): Settlement {
    if result.Some? then Resolved(result.value) else Refused
  }

  function Replied(c: Client, id: string, result: Option<string>): Client {
    if id !in c.pending then c
    else c.(pending := c.pending - {id}, settled := c.settled[c.pending[id] := SettlementOf(result)])
  }

  /** rejectPending. */
  function AllDropped(c: Client): Client {
    c.(pending := map[], settled := c.settled + map n | n in c.pending.Values :: Dropped)
  }

  /** Messages and the close event of any socket but the current one are ignored. */
  function Step(c: Client, e: Event): Client {
    match e
    case Open => Opened(c)
    case Ready(k) => if c.socket == Some(k) then c.(ready := true) else c
    case Call(sendable) => Called(c, sendable)
    case Reply(k, id, result) => if c.socket == Some(k) then Replied(c, id, result) else c
    case SessionFailed(k) => if c.socket == Some(k) then AllDropped(c) else c
    case SocketClosed(k) => if c.socket == Some(k) then AllDropped(c).(socket := None, ready := false) else c
    case Disconnect => c.(socket := None)
    case Close => AllDropped(c).(socket := None)
  }

  function After(events: seq<Event>): Client {
    if events == [] then NEW_CLIENT else Step(After(events[..|events| - 1]), events[|events| - 1])
  }

  // ---- the object ----

  class BackendSshClient {
    var opens: nat
    var socket: Option<nat>
    var sessionReady: bool
    var requestSequence: nat
    var pendingRequests: map<string, nat>
    ghost var settled: map<nat, Settlement>

    ghost function State(): Client
      reads this
    {
      Client(opens, socket, sessionReady, requestSequence, pendingRequests, settled)
    }

    constructor ()
      ensures State() == NEW_CLIENT
    {
      opens, socket, sessionReady, requestSequence, pendingRequests, settled := 0, None, false, 0, map[], map[];
    }

    method OpenSocket() returns (k: nat)
      modifies this
      ensures State() == Step(old(State()), Open) && socket == Some(k)
    {
      k := opens;
      opens, socket, sessionReady := opens + 1, Some(opens), false;
    }

    /** request: the id of the frame that is sent, or nothing when there is no ready session. */
    method Request(sendable: bool) returns (sent: Option<string>)
      modifies this
      ensures State() == Step(old(State()), Call(sendable))
      ensures if old(socket).Some? && sendable && old(sessionReady)
              then requestSequence == old(requestSequence) + 1 && sent == Some("r" + Decimal(requestSequence))
                   && pendingRequests == old(pendingRequests)[sent.value := requestSequence]
              else sent == None && State() == old(State())
    {
      if socket.None? || !sendable || !sessionReady { return None; }
      requestSequence := requestSequence + 1;
      var id := IdOf(requestSequence);
      pendingRequests := pendingRequests[id := requestSequence];
      sent := Some(id);
    }

    /** The response branch of handleMessage, behind the guard of onmessage: which call it settled, if any. */
    method HandleResponse(k: nat, id: string, result: Option<string>) returns (call: Option<nat>)
      modifies this
      ensures State() == Step(old(State()), Reply(k, id, result))
      ensures call == if old(socket) == Some(k) && id in old(pendingRequests) then Some(old(pendingRequests)[id]) else None
    {
      if socket != Some(k) { return None; }
      if id !in pendingRequests { return None; }
      var n := pendingRequests[id];
      pendingRequests := pendingRequests - {id};
      settled := settled[n := SettlementOf(result)];
      call := Some(n);
    }

    method RejectPending()
      modifies this
      ensures State() == AllDropped(old(State()))
    {
      settled := settled + map n | n in pendingRequests.Values :: Dropped;
      pendingRequests := map[];
    }

    method OnClose(k: nat)
      modifies this
      ensures State() == Step(old(State()), SocketClosed(k))
    {
      if socket != Some(k) { return; }
      socket, sessionReady := None, false;
      RejectPending();
    }

    /** disconnect forgets the socket and leaves the pending requests as they are. */
    method DisconnectClient()
      modifies this`socket
      ensures State() == Step(old(State()), Disconnect)
    {
      socket := None;
    }
  }

  // ---- every run ----

  /** The number in an id of this client's; 0 for a string that is none. */
  function NumberOf(id: string): nat {
    if id != "" && id[0] == 'r' && AllDigits(id[1..]) then ValueOf(id[1..]) else 0
  }

  lemma IdDenotes(n: nat)
    ensures NumberOf(IdOf(n)) == n
  {
    DecimalDenotes(n);
    assert IdOf(n)[1..] == Decimal(n);
  }

  /** Ids are never reused, not even after a reconnect: different calls have different ids. */
  lemma IdsDiffer(m: nat, n: nat)
    ensures IdOf(m) == IdOf(n) <==> m == n
  {
    IdDenotes(m);
    IdDenotes(n);
  }

  /** Each call made is pending under its own id or settled, and never both. */
  ghost predicate Accounted(c: Client, n: nat) {
    n in c.settled <==> !(IdOf(n) in c.pending && c.pending[IdOf(n)] == n)
  }

  ghost predicate Inv(c: Client) {
    && (forall id :: id in c.pending ==> 1 <= c.pending[id] <= c.sequence && id == IdOf(c.pending[id]))
    && (forall n :: n in c.settled ==> 1 <= n <= c.sequence)
    && (forall n :: 1 <= n <= c.sequence ==> Accounted(c, n))
    && (c.socket.Some? ==> c.socket.value < c.opens)
  }

  /** d agrees with c on everything about requests. */
  ghost predicate SameRequests(c: Client, d: Client) {
    d.sequence == c.sequence && d.pending == c.pending && d.settled == c.settled
  }

  lemma SameKeeps(c: Client, d: Client)
    requires Inv(c) && SameRequests(c, d) && (d.socket.Some? ==> d.socket.value < d.opens)
    ensures Inv(d)
  {
    forall n | 1 <= n <= d.sequence ensures Accounted(d, n) { assert Accounted(c, n); }
  }

  lemma CallKeeps(c: Client, sendable: bool)
    requires Inv(c)
    ensures Inv(Called(c, sendable)) && Called(c, sendable).settled == c.settled
  {
    var d := Called(c, sendable);
    if d.sequence != c.sequence {
      forall n | 1 <= n <= d.sequence ensures Accounted(d, n) {
        IdsDiffer(n, d.sequence);
        if n <= c.sequence { assert Accounted(c, n); }
      }
      forall id | id in d.pending ensures 1 <= d.pending[id] <= d.sequence && id == IdOf(d.pending[id]) {
        assert id in c.pending || id == IdOf(d.sequence);
      }
    }
  }

  lemma ReplyKeeps(c: Client, id: string, result: Option<string>)
    requires Inv(c)
    ensures Inv(Replied(c, id, result))
  {
    if id in c.pending {
      var d, m := Replied(c, id, result), c.pending[id];
      forall n | 1 <= n <= d.sequence ensures Accounted(d, n) {
        IdsDiffer(n, m);
        assert Accounted(c, n);
      }
    }
  }

  lemma DropKeeps(c: Client)
    requires Inv(c)
    ensures Inv(AllDropped(c))
    ensures forall n :: n in AllDropped(c).settled <==> 1 <= n <= c.sequence
  {
    var d := AllDropped(c);
    forall n ensures n in d.settled <==> 1 <= n <= c.sequence {
      if 1 <= n <= c.sequence {
        assert Accounted(c, n);
        if n !in c.settled { assert c.pending[IdOf(n)] in c.pending.Values; }
      }
    }
  }

  lemma StepKeeps(c: Client, e: Event)
    requires Inv(c)
    ensures Inv(Step(c, e))
  {
    match e
    case Open => SameKeeps(c, Opened(c));
    case Ready(_) => SameKeeps(c, c.(ready := true));
    case Call(sendable) => CallKeeps(c, sendable);
    case Reply(_, id, result) => ReplyKeeps(c, id, result);
    case SessionFailed(_) => DropKeeps(c);
    case SocketClosed(_) => DropKeeps(c); SameKeeps(AllDropped(c), AllDropped(c).(socket := None, ready := false));
    case Disconnect => SameKeeps(c, c.(socket := None));
    case Close => DropKeeps(c); SameKeeps(AllDropped(c), AllDropped(c).(socket := None));
  }

  lemma {:induction false} RunKeeps(events: seq<Event>)
    ensures Inv(After(events))
    decreases |events|
  {
    if events != [] {
      RunKeeps(events[..|events| - 1]);
      StepKeeps(After(events[..|events| - 1]), events[|events| - 1]);
    }
  }

  lemma AfterOneMore(events: seq<Event>, e: Event)
    ensures After(events + [e]) == Step(After(events), e)
  {
    assert (events + [e])[..|events|] == events;
  }

  lemma StepSettles(c: Client, e: Event, n: nat)
    requires Inv(c)
    ensures n in c.settled ==> n in Step(c, e).settled && Step(c, e).settled[n] == c.settled[n]
  {
    if n in c.settled {
      assert Accounted(c, n);
      if e.Reply? && e.id in c.pending { IdsDiffer(n, c.pending[e.id]); }
    }
  }

  /** Once settled a call keeps its result, whatever arrives later - repeated, stale or foreign responses included. */
  lemma {:induction false} SettledOnce(events: seq<Event>, more: seq<Event>, n: nat)
    requires n in After(events).settled
    ensures n in After(events + more).settled && After(events + more).settled[n] == After(events).settled[n]
    decreases |more|
  {
    if more == [] {
      assert events + more == events;
    } else {
      var k := |more| - 1;
      SettledOnce(events, more[..k], n);
      assert (events + more)[..|events + more| - 1] == events + more[..k];
      RunKeeps(events + more[..k]);
      StepSettles(After(events + more[..k]), more[k], n);
    }
  }

  /** A response settles the open call whose id it bears exactly when it comes over the current socket; no other call is touched. */
  lemma ResponseReachesItsCall(events: seq<Event>, k: nat, n: nat, result: Option<string>)
    requires var c := After(events); 1 <= n <= c.sequence && n !in c.settled
    ensures var c, d := After(events), After(events + [Reply(k, IdOf(n), result)]);
            d.settled == if c.socket == Some(k) then c.settled[n := if result.Some? then Resolved(result.value) else Refused]
                         else c.settled
  {
    RunKeeps(events);
    AfterOneMore(events, Reply(k, IdOf(n), result));
    assert Accounted(After(events), n);
  }

  /**
   The usual way of a request: over an open socket whose session is ready it is made under the next number, stays open
   until its own response arrives over that socket, and then has that response's result.
   */
  lemma RequestIsAnswered(events: seq<Event>, result: Option<string>)
    ensures var c, k, n := After(events), After(events).opens, After(events).sequence + 1;
            var made := events + [Open, Ready(k), Call(true)];
            && After(made).sequence == n && n !in After(made).settled
            && After(made + [Reply(k, IdOf(n), result)]).settled
               == c.settled[n := if result.Some? then Resolved(result.value) else Refused]
  {
    var c := After(events);
    RunKeeps(events);
    AfterOneMore(events, Open);
    AfterOneMore(events + [Open], Ready(c.opens));
    AfterOneMore(events + [Open] + [Ready(c.opens)], Call(true));
    assert events + [Open] + [Ready(c.opens)] + [Call(true)] == events + [Open, Ready(c.opens), Call(true)];
    ResponseReachesItsCall(events + [Open, Ready(c.opens), Call(true)], c.opens, c.sequence + 1, result);
  }

  /** Without an open socket and a ready session a request is refused at once and leaves no trace. */
  lemma UnreadyCallsFail(c: Client, sendable: bool)
    requires c.socket == None || !c.ready || !sendable
    ensures Step(c, Call(sendable)) == c
  {
  }

  /** A response nobody waits for settles nothing. */
  lemma StrayResponseIgnored(events: seq<Event>, k: nat, id: string, result: Option<string>)
    requires forall n :: 1 <= n <= After(events).sequence && n !in After(events).settled ==> id != IdOf(n)
    ensures After(events + [Reply(k, id, result)]).settled == After(events).settled
  {
    RunKeeps(events);
    AfterOneMore(events, Reply(k, id, result));
    var c := After(events);
    if id in c.pending {
      assert Accounted(c, c.pending[id]);
      assert false;
    }
  }

  /** Open calls. */
  ghost predicate NoneOpen(c: Client) {
    forall n :: 1 <= n <= c.sequence ==> n in c.settled
  }

  lemma DroppedExactly(c: Client)
    requires Inv(c)
    ensures forall n :: n in AllDropped(c).settled ==>
              AllDropped(c).settled[n] == if n in c.settled then c.settled[n] else Dropped
  {
    forall id | id in c.pending ensures c.pending[id] !in c.settled {
      assert Accounted(c, c.pending[id]);
    }
  }

  /** A failed session and close() settle every open call in the same way. */
  lemma FailureSettlesAll(events: seq<Event>, k: nat)
    requires After(events).socket == Some(k)
    ensures var c := After(events);
            forall e :: e == SessionFailed(k) || e == Close ==>
              && NoneOpen(Step(c, e))
              && forall n :: n in Step(c, e).settled ==> Step(c, e).settled[n] == if n in c.settled then c.settled[n] else Dropped
  {
    RunKeeps(events);
    DropKeeps(After(events));
    DroppedExactly(After(events));
  }

  /** The close event of a socket settles every open call exactly when it is the current socket's. */
  lemma LossSettlesAll(events: seq<Event>, k: nat)
    ensures var c, d := After(events), After(events + [SocketClosed(k)]);
            && (NoneOpen(d) <==> c.socket == Some(k) || NoneOpen(c))
            && forall n :: n in d.settled ==> d.settled[n] == if n in c.settled then c.settled[n] else Dropped
  {
    RunKeeps(events);
    DroppedExactly(After(events));
    AfterOneMore(events, SocketClosed(k));
    DropKeeps(After(events));
  }

  /** After disconnect nothing but close() or a new socket can settle what is open. */
  lemma DisconnectedIsDeaf(c: Client, e: Event)
    requires c.socket == None && !e.Close? && !e.Open?
    ensures Step(c, e).settled == c.settled && Step(c, e).socket == None
  {
  }

  /** A call that is open at a disconnect stays open, whatever the old socket still delivers. */
  lemma {:induction false} OpenAfterDisconnect(events: seq<Event>, more: seq<Event>, n: nat)
    requires n !in After(events).settled
    requires forall i :: 0 <= i < |more| ==> !more[i].Close? && !more[i].Open?
    ensures n !in After(events + [Disconnect] + more).settled && After(events + [Disconnect] + more).socket == None
    decreases |more|
  {
    if more == [] {
      assert events + [Disconnect] + more == events + [Disconnect];
      AfterOneMore(events, Disconnect);
    } else {
      var k := |more| - 1;
      OpenAfterDisconnect(events, more[..k], n);
      assert events + [Disconnect] + more == events + [Disconnect] + more[..k] + [more[k]];
      AfterOneMore(events + [Disconnect] + more[..k], more[k]);
      DisconnectedIsDeaf(After(events + [Disconnect] + more[..k]), more[k]);
    }
  }

  /** The shortest such run: one call, a disconnect, and then both a response and the close event come too late. */
  lemma LateResponseExample(result: Option<string>)
    ensures var events := [Open, Ready(0), Call(true)] + [Disconnect] + [Reply(0, IdOf(1), result), SocketClosed(0)];
            After(events).sequence == 1 && 1 !in After(events).settled
  {
    var a: seq<Event> := [];
    AfterOneMore(a, Open);
    assert a + [Open] == [Open];
    AfterOneMore([Open], Ready(0));
    assert [Open] + [Ready(0)] == [Open, Ready(0)];
    AfterOneMore([Open, Ready(0)], Call(true));
    assert [Open, Ready(0)] + [Call(true)] == [Open, Ready(0), Call(true)];
    var c := After([Open, Ready(0), Call(true)]);
    assert c.sequence == 1 && c.settled == map[];
    OpenAfterDisconnect([Open, Ready(0), Call(true)], [Reply(0, IdOf(1), result), SocketClosed(0)], 1);
    StillOne(c, Disconnect);
    AfterOneMore([Open, Ready(0), Call(true)], Disconnect);
    var d := [Open, Ready(0), Call(true)] + [Disconnect];
    AfterOneMore(d, Reply(0, IdOf(1), result));
    AfterOneMore(d + [Reply(0, IdOf(1), result)], SocketClosed(0));
    assert d + [Reply(0, IdOf(1), result), SocketClosed(0)] == d + [Reply(0, IdOf(1), result)] + [SocketClosed(0)];
  }

  lemma StillOne(c: Client, e: Event)
    requires !e.Call?
    ensures Step(c, e).sequence == c.sequence
  {
  }
}
