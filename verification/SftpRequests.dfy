/**
 A client that sends one request after another to a connected session: each passes the rate
 limiter or ends the session, and is answered before the next one is sent.
 */
module SftpRequests {
  import opened Common
  import opened RateLimiter
  import opened SessionModel
  import opened BackendSession
  import opened SessionTheorems

  /** The bucket after the first n requests, the k-th of which comes at clock(k); nothing when one of them is refused. */
  function BucketAfter(b: Bucket, clock: nat -> int, n: nat): Option<Bucket> {
    if n == 0 then Some(b)
    else
      var before := BucketAfter(b, clock, n - 1);
      if before.Some? && Passes(before.value, clock(n - 1)) then Some(Consumed(before.value, clock(n - 1))) else None
  }

  /** The first n requests all pass. */
  predicate GetThrough(b: Bucket, clock: nat -> int, n: nat) {
    BucketAfter(b, clock, n).Some?
  }

  lemma {:induction false} OnceRefused(b: Bucket, clock: nat -> int, m: nat, n: nat)
    requires m <= n && !GetThrough(b, clock, m)
    ensures !GetThrough(b, clock, n)
    decreases n
  {
    if m < n { OnceRefused(b, clock, m, n - 1); }
  }

  function Times(clock: nat -> int, n: nat): seq<int> {
    seq(n, i requires 0 <= i < n => clock(i))
  }

  /** In the terms of the rate limiter alone. */
  lemma {:induction false} GetThroughIsAllPass(b: Bucket, clock: nat -> int, n: nat)
    ensures GetThrough(b, clock, n) <==> AllPass(b, Times(clock, n))
    ensures GetThrough(b, clock, n) ==> BucketAfter(b, clock, n) == Some(After(b, Times(clock, n)))
    decreases n
  {
    if n > 0 {
      GetThroughIsAllPass(b, clock, n - 1);
      assert Times(clock, n) == Times(clock, n - 1) + [clock(n - 1)];
      OneMorePasses(b, Times(clock, n - 1), clock(n - 1));
    }
  }

  /** From bucket b the first n requests have all passed, and the session is waiting for the next. */
  ghost predicate Waiting(s: Session, b: Bucket, clock: nat -> int, n: nat) {
    !s.closed && s.conn.Some? && s.inFlight == map[] && BucketAfter(b, clock, n) == Some(s.bucket)
  }

  /** The same with request number n at the engine. */
  ghost predicate Serving(s: Session, b: Bucket, clock: nat -> int, n: nat, id: string, call: Call) {
    !s.closed && s.conn.Some? && s.inFlight == map[id := call] && BucketAfter(b, clock, n) == Some(s.bucket)
  }

  predicate FileCall(c: Call) {
    c.OpenRead? || c.ReadChunk? || c.CloseRead? || c.OpenWrite? || c.WriteChunk? || c.CloseWrite?
  }

  function ReadersAfter(s: Session, c: Call): seq<int> {
    if c.CloseRead? then Without(s.readers, c.h) else s.readers
  }

  function WritersAfter(s: Session, c: Call): seq<int> {
    if c.CloseWrite? then Without(s.writers, c.h) else s.writers
  }

  lemma OneMorePasses(b: Bucket, times: seq<int>, now: int)
    ensures AllPass(b, times + [now]) <==> AllPass(b, times) && Passes(After(b, times), now)
    ensures After(b, times + [now]) == Consumed(After(b, times), now)
  {
    var more := times + [now];
    assert more[..|times|] == times;
    if AllPass(b, more) {
      forall i | 0 <= i < |times| ensures Passes(After(b, times[..i]), times[i]) {
        assert more[..i] == times[..i] && Passes(After(b, more[..i]), more[i]);
      }
      assert Passes(After(b, more[..|times|]), more[|times|]);
    } else if AllPass(b, times) && Passes(After(b, times), now) {
      PassesOneMore(b, more, |times|);
      assert false;
    }
  }

  lemma PassedRequest(s: Session, id: string, call: Call, now: int)
    requires !s.closed && s.conn.Some? && s.inFlight == map[] && Passes(s.bucket, now)
    requires FileCall(call) && EffectOf(s, call).Some?
    ensures var t := Requested(s, id, Some(call), now, true);
            && !t.closed && t.conn == s.conn && t.inFlight == map[id := call] && t.bucket == Consumed(s.bucket, now)
            && t.readers == ReadersAfter(s, call) && t.writers == WritersAfter(s, call)
            && t.calls == s.calls + [EffectOf(s, call).value.call]
  {
    var noted := Noted(s, id, Some(call), now);
    assert EffectOf(noted, call).Some? && EffectOf(noted, call).value.call == EffectOf(s, call).value.call;
  }

  /** What a request makes of a waiting session. */
  ghost predicate Asked(s: Session, t: Session, call: Call)
    requires s.conn.Some? && EffectOf(s, call).Some?
  {
    && t.readers == ReadersAfter(s, call) && t.writers == WritersAfter(s, call)
    && t.calls == s.calls + [EffectOf(s, call).value.call]
  }

  /** A request of a waiting session reaches the engine exactly when it passes; otherwise it ends the session. */
  lemma RequestPassesOrEnds(s: Session, id: string, call: Call, b: Bucket, clock: nat -> int, n: nat, t: Session)
    requires Waiting(s, b, clock, n) && FileCall(call) && EffectOf(s, call).Some?
    requires t == Step(s, Receive(Request(id, Some(call)), clock(n), true))
    ensures GetThrough(b, clock, n + 1) ==> Serving(t, b, clock, n + 1, id, call) && Asked(s, t, call)
    ensures !GetThrough(b, clock, n + 1) ==> t.closed
  {
    if Passes(s.bucket, clock(n)) { PassedRequest(s, id, call, clock(n)); } else { RefusalEnds(s, id, Some(call), clock(n), true); }
  }

  lemma AnswerWaits(s: Session, id: string, call: Call, outcome: Outcome, b: Bucket, clock: nat -> int, n: nat, t: Session)
    requires Serving(s, b, clock, n, id, call) && t == Step(s, Settled(id, outcome, true))
    ensures Waiting(t, b, clock, n) && t.calls == s.calls
    ensures t.sent == s.sent + [Response(id, ReplyTo(outcome))]
    ensures t.readers == s.readers + (if outcome.ReadOpened? then [outcome.h] else [])
    ensures t.writers == s.writers + (if outcome.WriteOpened? then [outcome.h] else [])
  {
    assert s.inFlight - {id} == map[];
    assert s.readers + [] == s.readers && s.writers + [] == s.writers;
  }

  /** Request number n of the client, counted from 0: true when it is at the engine, false when the session is over. */
  method Ask(session: BackendSshSession, id: string, call: Call, clock: nat -> int, n: nat, ghost b: Bucket)
    returns (running: bool)
    requires Waiting(session.State(), b, clock, n) && FileCall(call) && EffectOf(session.State(), call).Some?
    modifies session
    ensures running == GetThrough(b, clock, n + 1)
    ensures running ==> Serving(session.State(), b, clock, n + 1, id, call)
    ensures running ==> Asked(old(session.State()), session.State(), call)
    ensures !running ==> session.closed
  {
    ghost var s := session.State();
    session.HandleMessage(Request(id, Some(call)), clock(n), true);
    RequestPassesOrEnds(s, id, call, b, clock, n, session.State());
    running := !session.closed;
    assert running == !session.State().closed;
  }

  /** The engine's answer goes out, and the session waits again. */
  method Answer(session: BackendSshSession, id: string, ghost call: Call, outcome: Outcome,
                ghost clock: nat -> int, ghost n: nat, ghost b: Bucket)
    requires Serving(session.State(), b, clock, n, id, call)
    modifies session
    ensures Waiting(session.State(), b, clock, n) && session.State().calls == old(session.State()).calls
    ensures session.State().sent == old(session.State()).sent + [Response(id, ReplyTo(outcome))]
    ensures session.State().readers == old(session.State()).readers + (if outcome.ReadOpened? then [outcome.h] else [])
    ensures session.State().writers == old(session.State()).writers + (if outcome.WriteOpened? then [outcome.h] else [])
  {
    ghost var s := session.State();
    session.Settle(id, outcome, true);
    AnswerWaits(s, id, call, outcome, b, clock, n, session.State());
  }
}
