/** The transport object, method by method, against the state machine. */
module WorkerTransport {
  import opened TransportModel

  class WorkerTcpTransport {
    const maxQueuedBytes: nat
    const maxBufferedReadBytes: nat
    var openedFlag: bool
    var closedFlag: bool
    var disposed: bool
    var writing: bool
    var listening: bool
    var reading: bool
    var writeQueue: seq<Bytes>
    var queuedBytes: int
    var loops: seq<Loop>
    var bufferedReads: seq<Bytes>
    var bufferedReadBytes: nat
    var failed: bool
    var issued: Bytes
    var delivered: Bytes
    ghost var accepted: Bytes
    ghost var written: Bytes
    ghost var received: Bytes
    ghost var cut: bool

    ghost function WriteSide(): Writes
      reads this
    {
      Writes(maxQueuedBytes, openedFlag, writing, writeQueue, queuedBytes, loops, accepted, issued, written)
    }

    ghost function ReadSide(): Reads
      reads this
    {
      Reads(maxBufferedReadBytes, listening, reading, disposed, bufferedReads, bufferedReadBytes, received, delivered, cut)
    }

    ghost function State(): Transport
      reads this
    {
      Transport(closedFlag, failed, WriteSide(), ReadSide())
    }

    constructor (maxQueued: nat, maxBuffered: nat)
      ensures State() == New(maxQueued, maxBuffered)
    {
      maxQueuedBytes, maxBufferedReadBytes := maxQueued, maxBuffered;
      openedFlag, closedFlag, disposed, writing, listening, reading := false, false, false, false, false, true;
      writeQueue, queuedBytes, loops := [], 0, [];
      bufferedReads, bufferedReadBytes, failed := [], 0, false;
      issued, delivered := [], [];
      accepted, written, received, cut := [], [], [], false;
    }

    method ClearWrites()
      modifies this`writeQueue, this`queuedBytes
      ensures WriteSide() == old(WriteSide()).(queue := [], queued := 0)
    {
      writeQueue, queuedBytes := [], 0;
    }

    method ClearReads()
      modifies this`bufferedReads, this`bufferedReadBytes, this`cut
      ensures ReadSide() == old(ReadSide()).(buffered := [], size := 0, cut := true)
    {
      bufferedReads, bufferedReadBytes := [], 0;
      cut := true;
    }

    method Clear()
      modifies this
      ensures State() == Cleared(old(State()))
    {
      closedFlag := true;
      ClearWrites();
      ClearReads();
    }

    method Close()
      modifies this
      ensures State() == Step(old(State()), TransportModel.Close)
    {
      if closedFlag { return; }
      Clear();
    }

    method FailWith()
      modifies this
      ensures State() == Fail(old(State()))
    {
      failed := true;
      if !closedFlag { Clear(); }
    }

    /** The flush loop up to its next await: what it now waits for. */
    method FlushTurn() returns (loop: Loop)
      modifies this
      ensures loop == NextLoop(old(State()).w, old(closedFlag))
      ensures State() == old(State()).(w := Turn(old(State()).w, old(closedFlag)))
    {
      if |writeQueue| > 0 && !closedFlag {
        var chunk := writeQueue[0];
        writeQueue := writeQueue[1..];
        issued := issued + chunk;
        return Writing(chunk);
      }
      loop := Leaving;
    }

    method ScheduleWrites()
      modifies this
      ensures State() == old(State()).(w := Scheduled(old(State()).w, old(closedFlag)))
    {
      if writing || !openedFlag || closedFlag { return; }
      writing := true;
      var loop := FlushTurn();
      loops := loops + [loop];
    }

    method SendData(data: Bytes)
      modifies this
      ensures State() == Step(old(State()), Send(data))
    {
      if closedFlag { return; }
      if queuedBytes + |data| > maxQueuedBytes {
        FailWith();
        return;
      }
      writeQueue := writeQueue + [data];
      queuedBytes := queuedBytes + |data|;
      accepted := accepted + data;
      ScheduleWrites();
    }

    method OnSocketOpened()
      requires !openedFlag
      modifies this
      ensures State() == Step(old(State()), SocketOpened)
    {
      if closedFlag { return; }
      openedFlag := true;
      ScheduleWrites();
    }

    method WriteDone(i: nat)
      requires i < |loops| && loops[i].Writing?
      modifies this
      ensures State() == Step(old(State()), WriteResolved(i))
    {
      var chunk := loops[i].chunk;
      queuedBytes := queuedBytes - |chunk|;
      written := written + chunk;
      var loop := FlushTurn();
      loops := loops[i := loop];
    }

    method WriteFailed(i: nat)
      requires i < |loops| && loops[i].Writing?
      modifies this
      ensures State() == Step(old(State()), WriteRejected(i))
    {
      loops := loops[i := Leaving];
      FailWith();
    }

    method Finally(i: nat)
      requires i < |loops| && loops[i].Leaving?
      modifies this
      ensures State() == Step(old(State()), FinallyRan(i))
    {
      writing := false;
      loops := loops[..i] + loops[i + 1..];
      if |writeQueue| > 0 && !closedFlag { ScheduleWrites(); }
    }

    /** One turn of readAll after its read has resolved. */
    method TakeRead(data: Bytes)
      requires reading
      modifies this
      ensures State() == Step(old(State()), ReadResolved(data))
    {
      received := received + data;
      reading := !closedFlag;
      if disposed { return; }
      if listening {
        delivered := delivered + data;
      } else if bufferedReadBytes + |data| > maxBufferedReadBytes {
        reading := false;
        FailWith();
      } else {
        bufferedReads := bufferedReads + [data];
        bufferedReadBytes := bufferedReadBytes + |data|;
      }
    }

    method EndOfStream()
      requires reading
      modifies this
      ensures State() == Step(old(State()), ReadEnded)
    {
      reading := false;
      if !closedFlag { closedFlag := true; }
    }

    method DisposeCallbacks()
      modifies this
      ensures State() == Step(old(State()), Dispose)
    {
      disposed, listening := true, false;
      ClearReads();
    }

    method OpenRejected()
      requires !openedFlag
      modifies this
      ensures State() == Step(old(State()), OpenFailed)
    {
      FailWith();
    }

    method ReadRejected()
      requires reading
      modifies this
      ensures State() == Step(old(State()), ReadFailed)
    {
      reading := false;
      FailWith();
    }

    /** onData: hand over what was buffered, in order, then every later read directly. */
    method OnData()
      modifies this
      ensures State() == Step(old(State()), Listen)
    {
      if disposed { return; }
      listening := true;
      DeliverBuffered();
      bufferedReadBytes := 0;
    }

    method DeliverBuffered()
      modifies this
      ensures State() == old(State()).(r := old(State()).r.(buffered := [], delivered := old(delivered) + Flat(old(bufferedReads))))
    {
      var pending := bufferedReads;
      bufferedReads := [];
      var i := 0;
      assert pending[0..] == pending;
      while i < |pending|
        invariant 0 <= i <= |pending|
        invariant State() == old(State()).(r := old(State()).r.(buffered := [], delivered := delivered))
        invariant delivered + Flat(pending[i..]) == old(delivered) + Flat(pending)
      {
        assert pending[i..][1..] == pending[i + 1..];
        delivered := delivered + pending[i];
        i := i + 1;
      }
    }
  }
}
