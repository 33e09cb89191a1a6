/** What becomes of the bytes that are sent and read, event by event and over whole runs. */
module TransportEffects {
  import opened TransportModel
  import opened TransportTheorems

  // ---- sends ----

  /** A send is accepted exactly if the transport is open and the queue has room; over the limit it ends the transport. */
  lemma SendExactly(t: Transport, data: Bytes)
    requires Inv(t)
    ensures var u, room := Step(t, Send(data)), t.w.queued + |data| <= t.w.limit;
            && u.w.accepted == (if !t.closed && room then t.w.accepted + data else t.w.accepted)
            && u.closed == (t.closed || !room) && u.failed == (t.failed || (!t.closed && !room))
            && u.r.received == t.r.received
            && (!u.closed ==> u.w.written + InFlight(u.w) + Flat(u.w.queue) == t.w.accepted + data)
  {
    SentOk(t, data);
  }

  /** The bytes of all sends of a run, in order. */
  function SentBytes(events: seq<Event>): Bytes {
    if events == [] then []
    else (if events[0].Send? then events[0].data else []) + SentBytes(events[1..])
  }

  lemma Regrouped(a: Bytes, b: Bytes, c: Bytes)
    ensures a + b + c == a + (b + c)
  {
  }

  lemma StepAccepts(t: Transport, e: Event)
    requires Inv(t) && Possible(t, e) && !Step(t, e).closed
    ensures !t.closed && Step(t, e).w.accepted == t.w.accepted + (if e.Send? then e.data else [])
  {
  }

  lemma {:induction false} RunAccepts(t: Transport, events: seq<Event>, u: Transport)
    requires Inv(t) && Runs(t, events, u) && !u.closed
    ensures !t.closed && u.w.accepted == t.w.accepted + SentBytes(events)
    decreases |events|
  {
    if events != [] {
      var e, more := events[0], events[1..];
      StepOk(t, e);
      RunAccepts(Step(t, e), more, u);
      StepAccepts(t, e);
      Regrouped(t.w.accepted, if e.Send? then e.data else [], SentBytes(more));
    }
  }

  /**
   In every run that leaves the transport open, the bytes written, being written and queued are, in this order, exactly
   the bytes of all sends so far.
   */
  lemma EverySendIsKept(maxQueued: nat, maxBuffered: nat, events: seq<Event>, t: Transport)
    requires Runs(New(maxQueued, maxBuffered), events, t) && !t.closed
    ensures t.w.written + InFlight(t.w) + Flat(t.w.queue) == SentBytes(events)
  {
    RunAccepts(New(maxQueued, maxBuffered), events, t);
    RunKeeps(New(maxQueued, maxBuffered), events, t);
  }

  /** Once opened, an idle transport takes the first send to the writer at once. */
  lemma FirstSendIsWritten(t: Transport, data: Bytes)
    requires Inv(t) && !t.closed && t.w.isOpen && t.w.loops == [] && t.w.queued + |data| <= t.w.limit
    ensures Step(t, Send(data)).w.loops == [Writing(data)] && Step(t, Send(data)).w.issued == t.w.issued + data
  {
    assert t.w.queue == [];
    assert t.w.queue + [data] == [data];
    assert [] + [Writing(data)] == [Writing(data)];
  }

  /** The opened socket starts the loop on what was queued before. */
  lemma OpeningExactly(t: Transport)
    requires Inv(t) && Possible(t, SocketOpened)
    ensures var u := Step(t, SocketOpened);
            && (t.closed ==> u == t)
            && (!t.closed ==> u.w.isOpen && !u.closed && u.w.accepted == t.w.accepted && |u.w.loops| == 1)
  {
    OpenedOk(t);
    if !t.closed { assert !t.w.writing ==> t.w.loops == []; }
  }

  // ---- reads ----

  /** The bytes of all resolved reads of a run, in order. */
  function ReadBytes(events: seq<Event>): Bytes {
    if events == [] then []
    else (if events[0].ReadResolved? then events[0].data else []) + ReadBytes(events[1..])
  }

  lemma ReadTakenReceives(t: Transport, data: Bytes)
    ensures ReadTaken(t, data).r.received == t.r.received + data
  {
  }

  lemma StepReceives(t: Transport, e: Event)
    requires Possible(t, e)
    ensures Step(t, e).r.received == t.r.received + (if e.ReadResolved? then e.data else [])
  {
    if e.ReadResolved? { ReadTakenReceives(t, e.data); }
  }

  lemma {:induction false} RunReceives(t: Transport, events: seq<Event>, u: Transport)
    requires Runs(t, events, u)
    ensures u.r.received == t.r.received + ReadBytes(events)
    decreases |events|
  {
    if events != [] {
      var e, more := events[0], events[1..];
      RunReceives(Step(t, e), more, u);
      StepReceives(t, e);
      Regrouped(t.r.received, if e.ReadResolved? then e.data else [], ReadBytes(more));
    }
  }

  /**
   Until the transport is closed or disposed, the bytes delivered and those still buffered are, in this order, exactly
   the bytes of all reads so far; and with a listener all of them have been delivered.
   */
  lemma EveryReadIsKept(maxQueued: nat, maxBuffered: nat, events: seq<Event>, t: Transport)
    requires Runs(New(maxQueued, maxBuffered), events, t) && !t.r.cut
    ensures t.r.delivered + Flat(t.r.buffered) == ReadBytes(events)
    ensures t.r.listening ==> t.r.delivered == ReadBytes(events)
  {
    RunReceives(New(maxQueued, maxBuffered), events, t);
    RunKeeps(New(maxQueued, maxBuffered), events, t);
  }

  /** A read goes to the listener; without one it is buffered, or ends the transport where the buffer has no room. */
  lemma ReadExactly(t: Transport, data: Bytes)
    requires Inv(t) && !t.closed && Possible(t, ReadResolved(data))
    ensures var u := Step(t, ReadResolved(data));
            if t.r.disposed then !u.closed && u.r.delivered == t.r.delivered && u.r.buffered == t.r.buffered
            else if t.r.listening then !u.closed && u.r.delivered == t.r.delivered + data && u.r.buffered == t.r.buffered
            else if |Flat(t.r.buffered)| + |data| <= t.r.limit
            then !u.closed && u.r.delivered == t.r.delivered && u.r.buffered == t.r.buffered + [data]
            else u.closed && u.failed && u.r.buffered == [] && u.r.delivered == t.r.delivered
  {
  }

  /** A listener gets what was buffered, in order, and is then the one reads go to; unless the callbacks are disposed of. */
  lemma ListenExactly(t: Transport)
    ensures var u := Step(t, Listen);
            if t.r.disposed then u == t
            else u.r.listening && u.r.delivered == t.r.delivered + Flat(t.r.buffered) && u.r.buffered == [] && u.w == t.w
  {
  }

  /** Once the callbacks are disposed of, the buffer is empty, a new listener is not taken, and reads go nowhere. */
  lemma DisposedIsDeaf(t: Transport, data: Bytes)
    ensures var u := Step(t, Dispose);
            && u.r.buffered == [] && u.r.delivered == t.r.delivered && u.w == t.w && u.closed == t.closed
            && Step(u, Listen) == u
            && (Possible(u, ReadResolved(data)) ==>
                  Step(u, ReadResolved(data)).r.delivered == t.r.delivered && Step(u, ReadResolved(data)).r.buffered == [])
  {
  }

  // ---- ends ----

  /** Every end drops what is queued and buffered; an error counts as a failure, a close and the end of the stream do not. */
  lemma EndsExactly(t: Transport)
    requires !t.closed
    ensures var u := Step(t, Close); u.closed && u.failed == t.failed && u.w.queue == [] && u.r.buffered == []
    ensures Possible(t, OpenFailed) ==>
              var u := Step(t, OpenFailed); u.closed && u.failed && u.w.queue == [] && u.r.buffered == []
    ensures Possible(t, ReadFailed) ==>
              var u := Step(t, ReadFailed); u.closed && u.failed && !u.r.reading && u.w.queue == [] && u.r.buffered == []
    ensures Possible(t, ReadEnded) ==>
              var u := Step(t, ReadEnded); u.closed && u.failed == t.failed && !u.r.reading && u.w == t.w
                                           && u.r.buffered == t.r.buffered
  {
  }

  /** A rejected write ends an open transport, and what it was writing is not counted as written. */
  lemma RejectedWriteEnds(t: Transport, i: nat)
    requires Inv(t) && Possible(t, WriteRejected(i))
    ensures var u := Step(t, WriteRejected(i));
            u.closed && u.failed && u.w.written == t.w.written && u.w.loops == [Leaving] && (!t.closed ==> u.w.queue == [])
  {
  }

  /** A resolved write counts its chunk as written, and only that. */
  lemma ResolvedWriteCounts(t: Transport, i: nat)
    requires Inv(t) && Possible(t, WriteResolved(i))
    ensures var u := Step(t, WriteResolved(i));
            u.w.written == t.w.written + t.w.loops[i].chunk && u.w.accepted == t.w.accepted && u.closed == t.closed
  {
  }
}
