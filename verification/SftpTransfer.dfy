/**
 File transfer end to end: the client's chunk loops, each of whose requests goes through the
 session and its rate limiter, and the file handles at the far end.
 */
module SftpTransfer {
  import opened Common
  import opened Text
  import opened Base64
  import opened RateLimiter
  import opened SessionModel
  import opened BackendSession
  import opened SftpFiles
  import opened SftpFrames
  import opened SftpRequests

  /** What became of a request: done, refused by the far end, or gone with the session. */
  datatype Fate = Done | Failed | Gone

  function IdOf(sequence: nat): string {
    "r" + Decimal(sequence)
  }

  // ---- writing ----

  /** The requests of a write: open, one a chunk, close. */
  function WriteRequests(n: nat): nat {
    ChunkCount(n) + 2
  }

  /** sftpOpenWrite. */
  method OpenForWrite(session: BackendSshSession, path: string, file: RemoteFile, disk: Disk, handle: int,
                      clock: nat -> int, n: nat, ghost b: Bucket)
    returns (r: Option<SftpWriteHandle>)
    requires Waiting(session.State(), b, clock, n)
    modifies session, file
    ensures r.Some? == GetThrough(b, clock, n + 1)
    ensures r.Some? ==> Waiting(session.State(), b, clock, n + 1) && handle in session.State().writers
    ensures r.Some? ==> fresh(r.value) && r.value.file == file && r.value.disk == disk && !r.value.closed && file.content == []
  {
    var running := Ask(session, IdOf(n), OpenWrite(path), clock, n, b);
    if !running { return None; }
    var h := new SftpWriteHandle(file, disk);
    Answer(session, IdOf(n), OpenWrite(path), WriteOpened(handle), clock, n + 1, b);
    r := Some(h);
  }

  /** A chunk encoded by the client, carried by a frame within the limit, and decoded by the session. */
  method Carry(piece: Bytes, handle: nat, n: nat) returns (bytes: Option<Bytes>)
    requires |piece| <= CHUNK && n <= MAX_SAFE && handle <= MAX_SAFE
    ensures |WriteFrame(n, handle, Encode(piece))| <= MAX_RPC_FRAME_BYTES
    ensures bytes == Some(piece)
  {
    var text := BytesToBase64(piece);
    WriteFrameFits(piece, n, handle);
    bytes := Base64ToBytes(text);
    DecodeEncode(piece);
  }

  /** One sftpWriteChunk: carried to the session, checked there, and written by the handle. */
  method SendChunk(session: BackendSshSession, h: SftpWriteHandle, handle: nat, piece: Bytes,
                   clock: nat -> int, n: nat, ghost b: Bucket)
    returns (fate: Fate)
    requires Waiting(session.State(), b, clock, n) && handle in session.State().writers
    requires !h.closed && 0 < |piece| <= CHUNK && n <= MAX_SAFE && handle <= MAX_SAFE
    modifies session, h.file
    ensures !fate.Gone? == GetThrough(b, clock, n + 1)
    ensures !fate.Gone? ==> Waiting(session.State(), b, clock, n + 1) && handle in session.State().writers
    ensures !fate.Gone? ==> (fate.Done? <==> h.disk.writeFails(|old(h.file.content)|).None?)
    ensures fate.Done? ==> h.file.content == old(h.file.content) + piece
  {
    var bytes := Carry(piece, handle, n);
    var running := Ask(session, IdOf(n), WriteChunk(handle, bytes), clock, n, b);
    if !running { return Gone; }
    var ok := h.WriteChunk(bytes.value);
    Answer(session, IdOf(n), WriteChunk(handle, bytes), if ok then Finished else Threw, clock, n + 1, b);
    fate := if ok then Done else Failed;
  }

  /** sftpCloseWrite. */
  method CloseWriting(session: BackendSshSession, h: SftpWriteHandle, handle: int, clock: nat -> int, n: nat, ghost b: Bucket)
    returns (ok: bool)
    requires Waiting(session.State(), b, clock, n) && handle in session.State().writers
    modifies session, h`closed
    ensures ok == GetThrough(b, clock, n + 1)
    ensures ok ==> Waiting(session.State(), b, clock, n + 1)
  {
    var running := Ask(session, IdOf(n), CloseWrite(handle), clock, n, b);
    if !running { return false; }
    h.Close();
    Answer(session, IdOf(n), CloseWrite(handle), Finished, clock, n + 1, b);
    ok := true;
  }

  /** The chunk at an offset. */
  method SendNext(session: BackendSshSession, h: SftpWriteHandle, handle: nat, data: Bytes, offset: nat,
                  clock: nat -> int, n: nat, ghost b: Bucket)
    returns (fate: Fate)
    requires Waiting(session.State(), b, clock, n) && handle in session.State().writers
    requires !h.closed && offset < |data| && h.file.content == data[..offset] && handle <= MAX_SAFE && n <= MAX_SAFE
    modifies session, h.file
    ensures !fate.Gone? == GetThrough(b, clock, n + 1)
    ensures !fate.Gone? ==> Waiting(session.State(), b, clock, n + 1) && handle in session.State().writers
    ensures !fate.Gone? ==> (fate.Done? <==> h.disk.writeFails(offset).None?)
    ensures fate.Done? ==> h.file.content == data[..Min(offset + CHUNK, |data|)]
  {
    var stop := Min(offset + CHUNK, |data|);
    assert data[..stop] == data[..offset] + data[offset..stop];
    fate := SendChunk(session, h, handle, data[offset..stop], clock, n, b);
  }

  /** The loop of writeFile over the chunks: how it ended, and how many chunks were answered. */
  method SendChunks(session: BackendSshSession, h: SftpWriteHandle, handle: nat, data: Bytes,
                    clock: nat -> int, n: nat, ghost b: Bucket)
    returns (fate: Fate, count: nat)
    requires Waiting(session.State(), b, clock, n) && handle in session.State().writers
    requires !h.closed && h.file.content == [] && handle <= MAX_SAFE && n + ChunkCount(|data|) <= MAX_SAFE
    modifies session, h.file
    ensures count <= ChunkCount(|data|)
    ensures !fate.Gone? ==> Waiting(session.State(), b, clock, n + count) && handle in session.State().writers
    ensures fate.Done? ==> count == ChunkCount(|data|) && h.file.content == data && WritableFrom(h.disk, |data|, 0)
    ensures fate.Failed? ==> !WritableFrom(h.disk, |data|, 0)
    ensures fate.Gone? ==> count < ChunkCount(|data|) && !GetThrough(b, clock, n + count + 1)
  {
    var offset: nat := 0;
    fate, count := Done, 0;
    while offset < |data|
      invariant Waiting(session.State(), b, clock, n + count) && handle in session.State().writers
      invariant h.file.content == data[..Min(offset, |data|)]
      invariant ChunkCount(|data|) == count + ChunksFrom(|data|, offset)
      invariant WritableFrom(h.disk, |data|, 0) == WritableFrom(h.disk, |data|, offset)
      invariant fate == Done
    {
      fate := SendNext(session, h, handle, data, offset, clock, n + count, b);
      if fate.Gone? { return; }
      count := count + 1;
      if fate.Failed? { return; }
      offset := offset + CHUNK;
    }
    assert data[..|data|] == data;
  }

  /** The rest of a write whose open has been answered. */
  method WriteAndClose(session: BackendSshSession, h: SftpWriteHandle, handle: nat, data: Bytes,
                       clock: nat -> int, n: nat, ghost b: Bucket)
    returns (ok: bool)
    requires Waiting(session.State(), b, clock, n) && handle in session.State().writers
    requires !h.closed && h.file.content == [] && handle <= MAX_SAFE && n + ChunkCount(|data|) <= MAX_SAFE
    modifies session, h.file, h`closed
    ensures ok <==> GetThrough(b, clock, n + ChunkCount(|data|) + 1) && WritableFrom(h.disk, |data|, 0)
    ensures ok ==> h.file.content == data && Waiting(session.State(), b, clock, n + ChunkCount(|data|) + 1)
  {
    var fate, count := SendChunks(session, h, handle, data, clock, n, b);
    if fate.Gone? {
      OnceRefused(b, clock, n + count + 1, n + ChunkCount(|data|) + 1);
      return false;
    }
    var closed := CloseWriting(session, h, handle, clock, n + count, b);
    ok := fate.Done? && closed;
  }

  /**
   writeFile, its first request being number n: open, chunks of 512 KiB, and a close whatever happens. It succeeds
   exactly when all its requests get through and no write fails; then the file holds the data.
   */
  method WriteFile(session: BackendSshSession, path: string, file: RemoteFile, disk: Disk, data: Bytes, handle: nat,
                   clock: nat -> int, n: nat, ghost b: Bucket)
    returns (ok: bool)
    requires Waiting(session.State(), b, clock, n) && handle <= MAX_SAFE && n + WriteRequests(|data|) <= MAX_SAFE
    modifies session, file
    ensures ok <==> GetThrough(b, clock, n + WriteRequests(|data|)) && WritableFrom(disk, |data|, 0)
    ensures ok ==> file.content == data && Waiting(session.State(), b, clock, n + WriteRequests(|data|))
  {
    var opening := OpenForWrite(session, path, file, disk, handle, clock, n, b);
    if opening.None? {
      OnceRefused(b, clock, n + 1, n + WriteRequests(|data|));
      return false;
    }
    ok := WriteAndClose(session, opening.value, handle, data, clock, n + 1, b);
  }

  // ---- reading ----

  /** The requests of a read: open, the chunk reads, close. */
  function ReadRequests(disk: Disk, size: nat): nat {
    PlanFrom(disk, size, 0).count + 2
  }

  method OpenForRead(session: BackendSshSession, path: string, file: RemoteFile, disk: Disk, handle: int,
                     clock: nat -> int, n: nat, ghost b: Bucket)
    returns (r: Option<SftpReadHandle>)
    requires Waiting(session.State(), b, clock, n)
    modifies session
    ensures r.Some? == GetThrough(b, clock, n + 1)
    ensures r.Some? ==> Waiting(session.State(), b, clock, n + 1) && handle in session.State().readers
    ensures r.Some? ==> fresh(r.value) && r.value.file == file && r.value.disk == disk && !r.value.closed && r.value.position == 0
  {
    var running := Ask(session, IdOf(n), OpenRead(path), clock, n, b);
    if !running { return None; }
    var h := new SftpReadHandle(file, disk);
    Answer(session, IdOf(n), OpenRead(path), ReadOpened(handle), clock, n + 1, b);
    r := Some(h);
  }

  datatype Fetched = Fetched(fate: Fate, bytes: Bytes, eof: bool)

  function FateAt(disk: Disk, position: nat): Fate {
    if disk.readFails(position) then Failed else Done
  }

  /** A read goes from one position to the other, and reports the end or not. */
  predicate Advances(disk: Disk, size: nat, position: nat, next: nat, eof: bool) {
    position <= next <= size
    && next == position + Given(disk, position, size - position, CHUNK)
    && eof == EndsWith(disk, position, size - position, next - position)
  }

  datatype Served = Refused | Served(base64: string, eof: bool, size: nat)

  /** sftpReadChunk at the session: the next piece of the file, encoded; its frame is within the limit. */
  method ServeRead(h: SftpReadHandle, n: nat) returns (r: Served)
    requires !h.closed && h.position <= |h.file.content| && n <= MAX_SAFE
    modifies h`position
    ensures old(h.position) <= h.position <= |h.file.content|
    ensures r.Refused? <==> h.disk.readFails(old(h.position))
    ensures r.Served? ==>
              var piece := h.file.content[old(h.position)..h.position];
              && r.size == |piece| <= CHUNK && r.base64 == Encode(piece) && Decode(r.base64) == Some(piece)
              && |ChunkFrame(n, r.base64, r.eof)| <= MAX_RPC_FRAME_BYTES
              && Advances(h.disk, |h.file.content|, old(h.position), h.position, r.eof)
  {
    var chunk := h.ReadChunk(CHUNK);
    if chunk.ReadError? { return Served.Refused; }
    var text := BytesToBase64(chunk.bytes);
    ChunkFrameFits(chunk.bytes, n, chunk.eof);
    DecodeEncode(chunk.bytes);
    r := Served(text, chunk.eof, |chunk.bytes|);
  }

  /** What was served goes out, and the client decodes it. */
  method AnswerRead(session: BackendSshSession, served: Served, ghost handle: int, ghost clock: nat -> int, n: nat, ghost b: Bucket)
    returns (r: Fetched)
    requires Serving(session.State(), b, clock, n + 1, IdOf(n), ReadChunk(handle)) && handle in session.State().readers
    requires served.Served? ==> Decode(served.base64).Some?
    modifies session
    ensures Waiting(session.State(), b, clock, n + 1) && handle in session.State().readers
    ensures r == if served.Refused? then Fetched(Failed, [], false)
                 else Fetched(Done, Decode(served.base64).value, served.eof)
  {
    if served.Refused? {
      Answer(session, IdOf(n), ReadChunk(handle), Threw, clock, n + 1, b);
      return Fetched(Failed, [], false);
    }
    Answer(session, IdOf(n), ReadChunk(handle), Chunk(served.size), clock, n + 1, b);
    var bytes := Base64ToBytes(served.base64);
    r := Fetched(Done, bytes.value, served.eof);
  }

  /** One sftpReadChunk: read by the handle, checked and encoded by the session, decoded by the client. */
  method FetchChunk(session: BackendSshSession, h: SftpReadHandle, handle: int, clock: nat -> int, n: nat, ghost b: Bucket)
    returns (r: Fetched)
    requires Waiting(session.State(), b, clock, n) && handle in session.State().readers
    requires !h.closed && h.position <= |h.file.content| && n <= MAX_SAFE
    modifies session, h`position
    ensures !r.fate.Gone? == GetThrough(b, clock, n + 1)
    ensures !r.fate.Gone? ==> Waiting(session.State(), b, clock, n + 1) && handle in session.State().readers
    ensures !r.fate.Gone? ==> r.fate == FateAt(h.disk, old(h.position))
    ensures old(h.position) <= h.position <= |h.file.content|
    ensures r.fate.Done? ==> r.bytes == h.file.content[old(h.position)..h.position]
    ensures r.fate.Done? ==> Advances(h.disk, |h.file.content|, old(h.position), h.position, r.eof)
  {
    var running := Ask(session, IdOf(n), ReadChunk(handle), clock, n, b);
    if !running { return Fetched(Gone, [], false); }
    var served := ServeRead(h, n);
    r := AnswerRead(session, served, handle, clock, n, b);
  }

  method CloseReading(session: BackendSshSession, h: SftpReadHandle, handle: int, clock: nat -> int, n: nat, ghost b: Bucket)
    returns (ok: bool)
    requires Waiting(session.State(), b, clock, n) && handle in session.State().readers
    modifies session, h`closed
    ensures ok == GetThrough(b, clock, n + 1)
    ensures ok ==> Waiting(session.State(), b, clock, n + 1)
  {
    var running := Ask(session, IdOf(n), CloseRead(handle), clock, n, b);
    if !running { return false; }
    h.Close();
    Answer(session, IdOf(n), CloseRead(handle), Finished, clock, n + 1, b);
    ok := true;
  }

  function Concat(chunks: seq<Bytes>): Bytes {
    if chunks == [] then [] else Concat(chunks[..|chunks| - 1]) + chunks[|chunks| - 1]
  }

  lemma ConcatGrows(chunks: seq<Bytes>, content: Bytes, before: nat, after: nat)
    requires before <= after <= |content| && Concat(chunks) == content[..before]
    ensures Concat(chunks + [content[before..after]]) == content[..after]
  {
    var more := chunks + [content[before..after]];
    assert more[..|chunks|] == chunks;
    assert content[..before] + content[before..after] == content[..after];
  }

  /** What one read says about the plan from its position. */
  lemma PlanStep(disk: Disk, size: nat, position: nat, next: nat, eof: bool)
    requires position <= size
    ensures disk.readFails(position) ==> PlanFrom(disk, size, position) == Plan(1, Broken)
    ensures !disk.readFails(position) && Advances(disk, size, position, next, eof) ==>
              PlanFrom(disk, size, position) ==
                if eof then Plan(1, AtEnd)
                else if next == position then Plan(1, NoProgress)
                else PlanFrom(disk, size, next).(count := 1 + PlanFrom(disk, size, next).count)
  {
  }

  function Plus(k: nat, p: Plan): Plan {
    p.(count := k + p.count)
  }

  /** One turn of the loop of readFile: the chunks so far, whether to stop, and what is then left of the plan. */
  method FetchNext(session: BackendSshSession, h: SftpReadHandle, handle: int, chunks: seq<Bytes>,
                   clock: nat -> int, n: nat, ghost b: Bucket)
    returns (fate: Fate, longer: seq<Bytes>, stop: bool, ghost rest: Plan)
    requires Waiting(session.State(), b, clock, n) && handle in session.State().readers
    requires !h.closed && h.position <= |h.file.content| && n <= MAX_SAFE
    requires Concat(chunks) == h.file.content[..h.position]
    modifies session, h`position
    ensures old(h.position) <= h.position <= |h.file.content|
    ensures fate.Gone? ==> !GetThrough(b, clock, n + 1)
    ensures !fate.Gone? ==> Waiting(session.State(), b, clock, n + 1) && handle in session.State().readers
    ensures rest == PlanFrom(h.disk, |h.file.content|, h.position)
    ensures var plan := PlanFrom(h.disk, |h.file.content|, old(h.position));
            && (fate.Failed? ==> plan.count == 1 && plan.ending != AtEnd)
            && (fate.Done? && stop ==> plan == Plan(1, AtEnd) && h.position == |h.file.content|)
            && (fate.Done? && !stop ==> old(h.position) < h.position && plan == Plus(1, rest))
    ensures fate.Done? ==> Concat(longer) == h.file.content[..h.position]
  {
    ghost var size, position := |h.file.content|, h.position;
    var fetched := FetchChunk(session, h, handle, clock, n, b);
    rest := PlanFrom(h.disk, size, h.position);
    if !fetched.fate.Done? {
      PlanStep(h.disk, size, position, position, false);
      return fetched.fate, chunks, true, rest;
    }
    PlanStep(h.disk, size, position, h.position, fetched.eof);
    ConcatGrows(chunks, h.file.content, position, h.position);
    longer := chunks + [fetched.bytes];
    stop := fetched.eof;
    fate := if !fetched.eof && |fetched.bytes| == 0 then Failed else Done;
  }

  /** The loop of readFile: chunks until the end of file, or until one makes no progress; and how many were answered. */
  method FetchChunks(session: BackendSshSession, h: SftpReadHandle, handle: int, clock: nat -> int, n: nat, ghost b: Bucket)
    returns (fate: Fate, chunks: seq<Bytes>, count: nat)
    requires Waiting(session.State(), b, clock, n) && handle in session.State().readers
    requires !h.closed && h.position == 0 && n + |h.file.content| <= MAX_SAFE
    modifies session, h`position
    ensures !fate.Gone? ==> Waiting(session.State(), b, clock, n + count) && handle in session.State().readers
    ensures var plan := PlanFrom(h.disk, |h.file.content|, 0);
            && (fate.Done? ==> plan.ending == AtEnd && count == plan.count)
            && (fate.Failed? ==> plan.ending != AtEnd)
            && (fate.Gone? ==> count < plan.count && !GetThrough(b, clock, n + count + 1))
    ensures fate.Done? ==> Concat(chunks) == h.file.content
  {
    chunks, count, fate := [], 0, Done;
    ghost var plan := PlanFrom(h.disk, |h.file.content|, 0);
    ghost var rest := plan;
    while true
      invariant count <= h.position <= |h.file.content|
      invariant Waiting(session.State(), b, clock, n + count) && handle in session.State().readers
      invariant Concat(chunks) == h.file.content[..h.position]
      invariant rest == PlanFrom(h.disk, |h.file.content|, h.position) && plan == Plus(count, rest)
      decreases |h.file.content| - h.position
    {
      var stop;
      fate, chunks, stop, rest := FetchNext(session, h, handle, chunks, clock, n + count, b);
      if fate.Gone? { return; }
      count := count + 1;
      if fate.Failed? { return; }
      if stop { return; }
    }
  }

  lemma {:induction false} ConcatPrefix(chunks: seq<Bytes>, i: nat)
    requires i <= |chunks|
    ensures |Concat(chunks[..i])| <= |Concat(chunks)|
    decreases |chunks|
  {
    if i < |chunks| {
      var n := |chunks| - 1;
      assert chunks[..n][..i] == chunks[..i];
      ConcatPrefix(chunks[..n], i);
    } else {
      assert chunks[..i] == chunks;
    }
  }

  /** concatBytes: the chunks copied one after another into one array. */
  method ConcatBytes(chunks: seq<Bytes>) returns (out: Bytes)
    ensures out == Concat(chunks)
  {
    var total := 0;
    for i := 0 to |chunks|
      invariant total == |Concat(chunks[..i])|
    {
      assert chunks[..i + 1][..i] == chunks[..i];
      total := total + |chunks[i]|;
    }
    assert chunks[..|chunks|] == chunks;
    var result := new Byte[total];
    var offset := 0;
    for i := 0 to |chunks|
      invariant offset == |Concat(chunks[..i])| <= total
      invariant result[..offset] == Concat(chunks[..i])
    {
      assert chunks[..i + 1][..i] == chunks[..i];
      ConcatPrefix(chunks, i + 1);
      CopyInto(result, offset, chunks[i]);
      offset := offset + |chunks[i]|;
    }
    out := result[..];
  }

  method CopyInto(result: array<Byte>, offset: nat, chunk: Bytes)
    requires offset + |chunk| <= result.Length
    modifies result
    ensures result[..offset + |chunk|] == old(result[..offset]) + chunk
  {
    for i := 0 to |chunk|
      invariant result[..offset] == old(result[..offset])
      invariant result[offset..offset + i] == chunk[..i]
    {
      result[offset + i] := chunk[i];
    }
  }

  /** The rest of a read whose open has been answered: its chunks, and whether all went well. */
  method ReadAndClose(session: BackendSshSession, h: SftpReadHandle, handle: int, clock: nat -> int, n: nat, ghost b: Bucket)
    returns (ok: bool, chunks: seq<Bytes>)
    requires Waiting(session.State(), b, clock, n) && handle in session.State().readers
    requires !h.closed && h.position == 0 && n + |h.file.content| <= MAX_SAFE
    modifies session, h
    ensures var plan := PlanFrom(h.disk, |h.file.content|, 0);
            && (ok <==> GetThrough(b, clock, n + plan.count + 1) && plan.ending == AtEnd)
            && (ok ==> Waiting(session.State(), b, clock, n + plan.count + 1) && Concat(chunks) == h.file.content)
  {
    var fate, read, count := FetchChunks(session, h, handle, clock, n, b);
    chunks := read;
    if fate.Gone? {
      OnceRefused(b, clock, n + count + 1, n + PlanFrom(h.disk, |h.file.content|, 0).count + 1);
      return false, chunks;
    }
    var closed := CloseReading(session, h, handle, clock, n + count, b);
    ok := fate.Done? && closed;
  }

  /**
   readFile, its first request being number n: it returns exactly when all its requests get through and the reads run
   to the end of the file, short reads or not; and what it returns is the whole content.
   */
  method ReadFile(session: BackendSshSession, path: string, file: RemoteFile, disk: Disk, handle: int,
                  clock: nat -> int, n: nat, ghost b: Bucket)
    returns (r: Option<Bytes>)
    requires Waiting(session.State(), b, clock, n) && n + |file.content| + 1 <= MAX_SAFE
    modifies session
    ensures r.Some? <==> GetThrough(b, clock, n + ReadRequests(disk, |file.content|))
                         && PlanFrom(disk, |file.content|, 0).ending == AtEnd
    ensures r.Some? ==> r.value == file.content
    ensures r.Some? ==> Waiting(session.State(), b, clock, n + ReadRequests(disk, |file.content|))
  {
    var opening := OpenForRead(session, path, file, disk, handle, clock, n, b);
    if opening.None? {
      OnceRefused(b, clock, n + 1, n + ReadRequests(disk, |file.content|));
      return None;
    }
    var ok, chunks := ReadAndClose(session, opening.value, handle, clock, n + 1, b);
    if !ok { return None; }
    var out := ConcatBytes(chunks);
    r := Some(out);
  }

  // ---- there and back ----

  /**
   Writing a file and reading it back over one session gives the same bytes exactly when all requests of both get
   through the rate limiter, no write fails and the reads run to the end of the file; otherwise nothing is returned.
   */
  method RoundTrip(session: BackendSshSession, path: string, file: RemoteFile, disk: Disk, data: Bytes,
                   writer: nat, reader: int, clock: nat -> int, ghost b: Bucket)
    returns (r: Option<Bytes>)
    requires Waiting(session.State(), b, clock, 0) && writer <= MAX_SAFE && 2 * |data| + 3 <= MAX_SAFE
    modifies session, file
    ensures r == if GetThrough(b, clock, WriteRequests(|data|) + ReadRequests(disk, |data|))
                    && WritableFrom(disk, |data|, 0) && PlanFrom(disk, |data|, 0).ending == AtEnd
                 then Some(data) else None
  {
    FewChunks(|data|, 0);
    var ok := WriteFile(session, path, file, disk, data, writer, clock, 0, b);
    if !ok {
      if !GetThrough(b, clock, WriteRequests(|data|)) {
        OnceRefused(b, clock, WriteRequests(|data|), WriteRequests(|data|) + ReadRequests(disk, |data|));
      }
      return None;
    }
    r := ReadFile(session, path, file, disk, reader, clock, WriteRequests(|data|), b);
  }
}
