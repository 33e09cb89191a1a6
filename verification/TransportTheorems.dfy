/** What holds of the transport in every order of sends, completions, reads and close. */
module TransportTheorems {
  import opened TransportModel

  // ---- the write side ----

  /** The state between two awaits of the flush loop: the loop itself is still to be placed. */
  ghost predicate Between(w: Writes, closed: bool) {
    && w.written <= w.issued <= w.accepted
    && (!closed ==>
          && w.issued == w.written && w.written + Flat(w.queue) == w.accepted
          && w.queued == |Flat(w.queue)| <= w.limit)
  }

  /** A turn of the loop puts the next chunk in flight, or leaves with the queue empty or the transport closed. */
  lemma TurnOk(w: Writes, closed: bool)
    requires Between(w, closed)
    ensures WritesOk(Turn(w, closed).(writing := true, loops := [NextLoop(w, closed)]), closed)
  {
    if w.queue != [] && !closed {
      var head, tail := w.queue[0], w.queue[1..];
      assert Flat(w.queue) == head + Flat(tail);
      assert w.issued + head + Flat(tail) == w.accepted;
    }
  }

  lemma ScheduledOk(w: Writes, closed: bool)
    requires Between(w, closed) && w.loops == [] && !w.writing
    ensures WritesOk(Scheduled(w, closed), closed)
  {
    if w.isOpen && !closed {
      TurnOk(w, closed);
      assert [] + [NextLoop(w, closed)] == [NextLoop(w, closed)];
    }
  }

  lemma QueuedOk(w: Writes, data: Bytes)
    requires WritesOk(w, false) && w.queued + |data| <= w.limit
    ensures WritesOk(Scheduled(Queued(w, data), false), false)
  {
    FlatLast(w.queue, data);
    var v := Queued(w, data);
    assert v.written + InFlight(v) + Flat(v.queue) == v.accepted;
    if !w.writing { ScheduledOk(v, false); }
  }

  lemma ResolvedOk(w: Writes, i: nat, closed: bool)
    requires WritesOk(w, closed) && i < |w.loops| && w.loops[i].Writing?
    ensures WritesOk(Resolved(w, i, closed), closed)
  {
    var chunk := w.loops[0].chunk;
    var v := Written(w, chunk);
    assert InFlight(w) == chunk;
    assert w.written + InFlight(w) + Flat(w.queue) == v.written + Flat(v.queue);
    TurnOk(v, closed);
    assert w.loops[i := NextLoop(v, closed)] == [NextLoop(v, closed)];
  }

  lemma LeftOk(w: Writes, i: nat, closed: bool)
    requires WritesOk(w, closed) && i < |w.loops| && w.loops[i].Leaving?
    ensures WritesOk(Left(w, i, closed), closed)
  {
    var v := w.(writing := false, loops := w.loops[..i] + w.loops[i + 1..]);
    assert v.loops == [];
    if v.queue != [] && !closed { ScheduledOk(v, closed); }
  }

  lemma ClearedWritesOk(w: Writes)
    requires WritesOk(w, false)
    ensures WritesOk(w.(queue := [], queued := 0), true)
  {
  }

  /** A rejected write closes the transport; its chunk is issued but never counted as written. */
  lemma RejectedOk(w: Writes, i: nat, closed: bool)
    requires WritesOk(w, closed) && i < |w.loops| && w.loops[i].Writing?
    ensures WritesOk(w.(loops := w.loops[i := Leaving]), true)
    ensures WritesOk(w.(loops := w.loops[i := Leaving], queue := [], queued := 0), true)
  {
    assert w.loops[i := Leaving] == [Leaving];
    assert w.written <= w.written + InFlight(w);
  }

  // ---- both sides ----

  lemma ClearedOk(t: Transport)
    requires Inv(t) && !t.closed
    ensures Inv(Cleared(t))
  {
    ClearedWritesOk(t.w);
  }

  lemma FailOk(t: Transport)
    requires Inv(t)
    ensures Inv(Fail(t)) && Fail(t).closed
  {
    if !t.closed { ClearedOk(t); }
  }

  lemma ReadTakenOk(t: Transport, data: Bytes)
    requires Inv(t) && t.r.reading
    ensures Inv(ReadTaken(t, data))
  {
    FlatLast(t.r.buffered, data);
    var r := t.r.(reading := !t.closed, received := t.r.received + data);
    if Overflows(r, data) && !t.closed {
      ClearedWritesOk(t.w);
    }
  }

  lemma SentOk(t: Transport, data: Bytes)
    requires Inv(t)
    ensures Inv(Sent(t, data))
  {
    if !t.closed && t.w.queued + |data| <= t.w.limit { QueuedOk(t.w, data); } else { FailOk(t); }
  }

  lemma OpenedOk(t: Transport)
    requires Inv(t) && Possible(t, SocketOpened)
    ensures Inv(Step(t, SocketOpened))
  {
    if !t.closed && !t.w.writing { ScheduledOk(t.w.(isOpen := true), false); }
  }

  lemma ListenOk(t: Transport)
    requires Inv(t)
    ensures Inv(Step(t, Listen))
  {
  }

  lemma WriteEndOk(t: Transport, e: Event)
    requires Inv(t) && Possible(t, e) && (e.WriteResolved? || e.WriteRejected? || e.FinallyRan?)
    ensures Inv(Step(t, e))
  {
    match e
    case WriteResolved(i) => ResolvedOk(t.w, i, t.closed);
    case WriteRejected(i) => RejectedOk(t.w, i, t.closed);
    case FinallyRan(i) => LeftOk(t.w, i, t.closed);
  }

  /** Every event keeps the invariant. */
  lemma StepOk(t: Transport, e: Event)
    requires Inv(t) && Possible(t, e)
    ensures Inv(Step(t, e))
  {
    match e
    case Send(data) => SentOk(t, data);
    case SocketOpened => OpenedOk(t);
    case OpenFailed => FailOk(t);
    case WriteResolved(_) => WriteEndOk(t, e);
    case WriteRejected(_) => WriteEndOk(t, e);
    case FinallyRan(_) => WriteEndOk(t, e);
    case ReadResolved(data) => ReadTakenOk(t, data);
    case ReadEnded => EndedOk(t);
    case ReadFailed => FailOk(t.(r := t.r.(reading := false)));
    case Listen => ListenOk(t);
    case Dispose =>
    case Close => if !t.closed { ClearedOk(t); }
  }

  lemma EndedOk(t: Transport)
    requires Inv(t) && t.r.reading
    ensures Inv(t.(closed := true, r := t.r.(reading := false)))
  {
  }

  lemma {:induction false} RunKeeps(t: Transport, events: seq<Event>, u: Transport)
    requires Inv(t) && Runs(t, events, u)
    ensures Inv(u)
    decreases |events|
  {
    if events != [] {
      StepOk(t, events[0]);
      RunKeeps(Step(t, events[0]), events[1..], u);
    }
  }

  /** From the start: one flush loop at most, no lost wakeup, and bytes leave in the order they were accepted. */
  lemma TransportIsOrdered(maxQueued: nat, maxBuffered: nat, events: seq<Event>, t: Transport)
    requires Runs(New(maxQueued, maxBuffered), events, t)
    ensures |t.w.loops| <= 1
    ensures t.w.issued <= t.w.accepted
    ensures !t.closed ==> t.w.written + InFlight(t.w) + Flat(t.w.queue) == t.w.accepted
    ensures !t.closed ==> t.w.queued == |InFlight(t.w)| + |Flat(t.w.queue)| <= t.w.limit
    ensures !t.closed && t.w.isOpen && t.w.queue != [] ==> |t.w.loops| == 1
    ensures !t.r.cut ==> t.r.received == t.r.delivered + Flat(t.r.buffered)
    ensures |Flat(t.r.buffered)| <= t.r.limit
  {
    RunKeeps(New(maxQueued, maxBuffered), events, t);
  }

  /** After close nothing more is accepted or issued. */
  lemma ClosedIsQuiet(t: Transport, e: Event)
    requires Inv(t) && t.closed && Possible(t, e)
    ensures Step(t, e).closed && Step(t, e).w.issued == t.w.issued && Step(t, e).w.accepted == t.w.accepted
  {
  }

  /** What the flush loop still has to complete if nothing more is sent. */
  function Pending(w: Writes): nat {
    2 * |w.queue| + (if |w.loops| == 1 then (if w.loops[0].Writing? then 2 else 1) else 0)
  }

  /** Each completion of the flush loop leaves less to do, and with nothing left every accepted byte is written. */
  lemma CompletionsDrain(t: Transport, e: Event)
    requires Inv(t) && !t.closed && t.w.isOpen && Possible(t, e)
    requires e.WriteResolved? || e.FinallyRan?
    ensures !Step(t, e).closed && Step(t, e).w.accepted == t.w.accepted
    ensures Pending(Step(t, e).w) < Pending(t.w)
    ensures Pending(Step(t, e).w) == 0 ==> Step(t, e).w.written == t.w.accepted
  {
    StepOk(t, e);
    if e.FinallyRan? {
      assert t.w.loops[..e.loop] + t.w.loops[e.loop + 1..] == [];
    }
  }
}
