/**
 The TCP transport: a bounded write queue drained by one flush loop, and reads that are
 buffered until somebody listens. A flush loop is suspended either in a write or, with its
 loop over, before its `finally` runs.
 */
module TransportModel {
  type Bytes = seq<bv8>

  datatype Loop = Writing(chunk: Bytes) | Leaving

  /** The write side; `accepted`, `issued` and `written` record history only. */
  datatype Writes = Writes(
    limit: nat, isOpen: bool, writing: bool, queue: seq<Bytes>, queued: int, loops: seq<Loop>,
    accepted: Bytes, issued: Bytes, written: Bytes)

  /** The read side; `received`, `delivered` and `cut` record history only. */
  datatype Reads = Reads(
    limit: nat, listening: bool, reading: bool, disposed: bool, buffered: seq<Bytes>, size: nat,
    received: Bytes, delivered: Bytes, cut: bool)

  datatype Transport = Transport(closed: bool, failed: bool, w: Writes, r: Reads)

  datatype Event =
    | Send(data: Bytes)
    | SocketOpened
    | OpenFailed
    | WriteResolved(loop: nat)
    | WriteRejected(loop: nat)
    | FinallyRan(loop: nat)
    | ReadResolved(data: Bytes)
    | ReadEnded
    | ReadFailed
    | Listen
    | Dispose
    | Close

  function Flat(chunks: seq<Bytes>): Bytes {
    if chunks == [] then [] else chunks[0] + Flat(chunks[1..])
  }

  function New(maxQueued: nat, maxBuffered: nat): Transport {
    Transport(false, false, Writes(maxQueued, false, false, [], 0, [], [], [], []),
              Reads(maxBuffered, false, true, false, [], 0, [], [], false))
  }

  /** What the flush loop awaits after its next turn: the write of the head of the queue, or its own end. */
  function NextLoop(w: Writes, closed: bool): Loop {
    if w.queue != [] && !closed then Writing(w.queue[0]) else Leaving
  }

  function Turn(w: Writes, closed: bool): Writes {
    if w.queue != [] && !closed then w.(queue := w.queue[1..], issued := w.issued + w.queue[0]) else w
  }

  function Scheduled(w: Writes, closed: bool): Writes {
    if w.writing || !w.isOpen || closed then w
    else Turn(w, closed).(writing := true, loops := w.loops + [NextLoop(w, closed)])
  }

  function Cleared(t: Transport): Transport {
    Transport(true, t.failed, t.w.(queue := [], queued := 0), t.r.(buffered := [], size := 0, cut := true))
  }

  function Fail(t: Transport): Transport {
    (if t.closed then t else Cleared(t)).(failed := true)
  }

  function Queued(w: Writes, data: Bytes): Writes {
    w.(queue := w.queue + [data], queued := w.queued + |data|, accepted := w.accepted + data)
  }

  function Sent(t: Transport, data: Bytes): Transport {
    if t.closed then t
    else if t.w.queued + |data| > t.w.limit then Fail(t)
    else t.(w := Scheduled(Queued(t.w, data), false))
  }

  function Written(w: Writes, chunk: Bytes): Writes {
    w.(queued := w.queued - |chunk|, written := w.written + chunk)
  }

  /** The awaited write of a loop has resolved; the loop goes on. */
  function Resolved(w: Writes, i: nat, closed: bool): Writes
    requires i < |w.loops| && w.loops[i].Writing?
  {
    var v := Written(w, w.loops[i].chunk);
    Turn(v, closed).(loops := w.loops[i := NextLoop(v, closed)])
  }

  /** The `finally` of a loop. */
  function Left(w: Writes, i: nat, closed: bool): Writes
    requires i < |w.loops|
  {
    var v := w.(writing := false, loops := w.loops[..i] + w.loops[i + 1..]);
    if v.queue != [] && !closed then Scheduled(v, closed) else v
  }

  function Delivered(r: Reads, data: Bytes): Reads {
    if r.disposed then r
    else if r.listening then r.(delivered := r.delivered + data)
    else r.(buffered := r.buffered + [data], size := r.size + |data|)
  }

  predicate Overflows(r: Reads, data: Bytes) {
    !r.disposed && !r.listening && r.size + |data| > r.limit
  }

  function ReadTaken(t: Transport, data: Bytes): Transport {
    var r := t.r.(reading := !t.closed, received := t.r.received + data);
    if Overflows(r, data) then Fail(t.(r := r.(reading := false))) else t.(r := Delivered(r, data))
  }

  function Listened(r: Reads): Reads {
    if r.disposed then r
    else r.(listening := true, delivered := r.delivered + Flat(r.buffered), buffered := [], size := 0)
  }

  predicate Possible(t: Transport, e: Event) {
    match e
    case SocketOpened => !t.w.isOpen
    case OpenFailed => !t.w.isOpen
    case WriteResolved(i) => i < |t.w.loops| && t.w.loops[i].Writing?
    case WriteRejected(i) => i < |t.w.loops| && t.w.loops[i].Writing?
    case FinallyRan(i) => i < |t.w.loops| && t.w.loops[i].Leaving?
    case ReadResolved(_) => t.r.reading
    case ReadEnded => t.r.reading
    case ReadFailed => t.r.reading
    case _ => true
  }

  function Step(t: Transport, e: Event): Transport
    requires Possible(t, e)
  {
    match e
    case Send(data) => Sent(t, data)
    case SocketOpened => if t.closed then t else t.(w := Scheduled(t.w.(isOpen := true), false))
    case OpenFailed => Fail(t)
    case WriteResolved(i) => t.(w := Resolved(t.w, i, t.closed))
    case WriteRejected(i) => Fail(t.(w := t.w.(loops := t.w.loops[i := Leaving])))
    case FinallyRan(i) => t.(w := Left(t.w, i, t.closed))
    case ReadResolved(data) => ReadTaken(t, data)
    case ReadEnded => t.(closed := true, r := t.r.(reading := false))
    case ReadFailed => Fail(t.(r := t.r.(reading := false)))
    case Listen => t.(r := Listened(t.r))
    case Dispose => t.(r := t.r.(disposed := true, listening := false, buffered := [], size := 0, cut := true))
    case Close => if t.closed then t else Cleared(t)
  }

  ghost predicate Runs(t: Transport, events: seq<Event>, u: Transport)
    decreases |events|
  {
    if events == [] then t == u
    else Possible(t, events[0]) && Runs(Step(t, events[0]), events[1..], u)
  }

  // ---- what every run keeps ----

  /** The bytes of the write that is running. */
  function InFlight(w: Writes): Bytes {
    if |w.loops| == 1 && w.loops[0].Writing? then w.loops[0].chunk else []
  }

  /**
   Writes are issued in the order of the accepted bytes, never twice and never skipping any.
   While open, every accepted byte is written, being written or queued, and counted.
   */
  ghost predicate BytesOk(w: Writes, closed: bool) {
    && w.written + InFlight(w) <= w.issued <= w.accepted
    && (!closed ==>
          && w.issued == w.written + InFlight(w)
          && w.written + InFlight(w) + Flat(w.queue) == w.accepted
          && w.queued == |InFlight(w)| + |Flat(w.queue)| <= w.limit)
  }

  /** At most one flush loop; and nothing waits in the queue of an open transport without one. */
  ghost predicate LoopOk(w: Writes, closed: bool) {
    && |w.loops| == (if w.writing then 1 else 0)
    && (w.isOpen && !closed && w.queue != [] ==> w.writing)
  }

  ghost predicate WritesOk(w: Writes, closed: bool) {
    LoopOk(w, closed) && BytesOk(w, closed)
  }

  /** Until the transport is cut off or disposed, received bytes are delivered or buffered, in order. */
  ghost predicate ReadsOk(r: Reads, closed: bool) {
    && (!r.cut ==> r.received == r.delivered + Flat(r.buffered))
    && r.size == |Flat(r.buffered)| <= r.limit
    && (r.listening && !r.disposed ==> r.buffered == [])
    && (closed && r.reading ==> r.cut) && (r.disposed ==> r.cut)
  }

  ghost predicate Inv(t: Transport) {
    WritesOk(t.w, t.closed) && ReadsOk(t.r, t.closed)
  }

  lemma {:induction false} FlatAppend(a: seq<Bytes>, b: seq<Bytes>)
    ensures Flat(a + b) == Flat(a) + Flat(b)
    decreases |a|
  {
    if a == [] {
      assert a + b == b;
    } else {
      assert (a + b)[1..] == a[1..] + b;
      FlatAppend(a[1..], b);
    }
  }

  lemma FlatLast(a: seq<Bytes>, data: Bytes)
    ensures Flat(a + [data]) == Flat(a) + data
  {
    FlatAppend(a, [data]);
    assert Flat([data]) == data + Flat([]);
  }
}
