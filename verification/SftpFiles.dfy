/** The far end of a transfer: remote files, and the handles that read and write them chunk by chunk. */
module SftpFiles {
  import opened Common
  import opened Base64
  import SessionModel

  const CHUNK: nat := SessionModel.SFTP_CHUNK_BYTES

  /**
   How a file answers, by position: how much of what is asked a read gives, whether it reports the end together
   with the last byte, where a read fails, and where a write fails after so many bytes.
   */
  datatype Disk = Disk(
    give: (nat, nat) -> nat, endsEarly: nat -> bool, readFails: nat -> bool, writeFails: nat -> Option<nat>)

  class RemoteFile {
    var content: Bytes

    constructor ()
      ensures content == []
    {
      content := [];
    }
  }

  function Given(disk: Disk, position: nat, left: nat, maxBytes: nat): nat {
    Min(disk.give(position, maxBytes), Min(left, maxBytes))
  }

  predicate EndsWith(disk: Disk, position: nat, left: nat, given: nat) {
    left == 0 || (given == left && disk.endsEarly(position))
  }

  datatype ReadResult = ReadError | Data(bytes: Bytes, eof: bool)

  class SftpReadHandle {
    const file: RemoteFile
    const disk: Disk
    var position: nat
    var closed: bool

    constructor (file: RemoteFile, disk: Disk)
      ensures this.file == file && this.disk == disk && position == 0 && !closed
    {
      this.file, this.disk, position, closed := file, disk, 0, false;
    }

    /** ReadChunk: an error, or at most maxBytes, possibly fewer; end of file only with nothing left. */
    method ReadChunk(maxBytes: nat) returns (r: ReadResult)
      requires position <= |file.content|
      modifies this`position
      ensures r.ReadError? <==> closed || maxBytes < 1 || maxBytes > CHUNK || disk.readFails(old(position))
      ensures r.ReadError? ==> position == old(position)
      ensures r.Data? ==>
                var left := |file.content| - old(position);
                && position == old(position) + Given(disk, old(position), left, maxBytes) <= |file.content|
                && r.bytes == file.content[old(position)..position]
                && r.eof == EndsWith(disk, old(position), left, |r.bytes|)
    {
      if closed || maxBytes < 1 || maxBytes > CHUNK { return ReadError; }
      if disk.readFails(position) { return ReadError; }
      var left := |file.content| - position;
      var n := Given(disk, position, left, maxBytes);
      var buffer := file.content[position..position + n];
      r := Data(buffer, EndsWith(disk, position, left, n));
      position := position + n;
    }

    method Close()
      modifies this`closed
      ensures closed
    {
      closed := true;
    }
  }

  class SftpWriteHandle {
    const file: RemoteFile
    const disk: Disk
    var closed: bool

    /** Opening for writing truncates the file. */
    constructor (file: RemoteFile, disk: Disk)
      modifies file
      ensures this.file == file && this.disk == disk && !closed && file.content == []
    {
      this.file, this.disk, closed := file, disk, false;
      new;
      file.content := [];
    }

    /** WriteChunk: appends the whole chunk, or fails with some part of it written. */
    method WriteChunk(data: Bytes) returns (ok: bool)
      modifies file
      ensures ok <==> !closed && |data| <= CHUNK && (data == [] || disk.writeFails(|old(file.content)|).None?)
      ensures ok ==> file.content == old(file.content) + data
      ensures !ok ==> old(file.content) <= file.content <= old(file.content) + data
    {
      if closed || |data| > CHUNK { return false; }
      if |data| == 0 { return true; }
      var failure := disk.writeFails(|file.content|);
      if failure.Some? {
        file.content := file.content + data[..Min(failure.value, |data|)];
        return false;
      }
      file.content := file.content + data;
      ok := true;
    }

    method Close()
      modifies this`closed
      ensures closed
    {
      closed := true;
    }
  }

  // ---- what a read loop will meet ----

  datatype Ending = AtEnd | NoProgress | Broken

  /** The number of chunk reads from a position to the end of the loop, and how the loop ends. */
  datatype Plan = Plan(count: nat, ending: Ending)

  function PlanFrom(disk: Disk, size: nat, position: nat): (p: Plan)
    requires position <= size
    ensures p.count >= 1
    decreases size - position
  {
    var left := size - position;
    var given := Given(disk, position, left, CHUNK);
    if disk.readFails(position) then Plan(1, Broken)
    else if EndsWith(disk, position, left, given) then Plan(1, AtEnd)
    else if given == 0 then Plan(1, NoProgress)
    else
      var rest := PlanFrom(disk, size, position + given);
      rest.(count := rest.count + 1)
  }

  /** A file that gives all it is asked for and never fails, with the end reported by a read of its own. */
  ghost predicate Plain(disk: Disk) {
    forall p: nat, n: nat :: disk.give(p, n) == n && !disk.endsEarly(p) && !disk.readFails(p) && disk.writeFails(p).None?
  }

  /** The turns of `for (offset = 0; offset < n; offset += CHUNK)` from an offset on. */
  function ChunksFrom(n: nat, offset: nat): nat
    decreases n - offset
  {
    if offset >= n then 0 else 1 + ChunksFrom(n, offset + CHUNK)
  }

  function ChunkCount(n: nat): nat {
    ChunksFrom(n, 0)
  }

  lemma {:induction false} ChunksRoundUp(n: nat, offset: nat)
    requires offset <= n + CHUNK
    ensures n - offset <= ChunksFrom(n, offset) * CHUNK < n - offset + CHUNK || (offset >= n && ChunksFrom(n, offset) == 0)
    decreases n - offset
  {
    if offset < n { ChunksRoundUp(n, offset + CHUNK); }
  }

  /** n bytes fill n / CHUNK chunks, rounded up. */
  lemma ChunkCountIsCeiling(n: nat)
    ensures n <= ChunkCount(n) * CHUNK < n + CHUNK
  {
    ChunksRoundUp(n, 0);
  }

  lemma {:induction false} FewChunks(n: nat, offset: nat)
    ensures ChunksFrom(n, offset) <= if offset < n then n - offset else 0
    decreases n - offset
  {
    if offset < n { FewChunks(n, offset + CHUNK); }
  }

  /** A plain file is read in one request a chunk and one more for the end. */
  lemma {:induction false} PlainPlan(disk: Disk, size: nat, position: nat)
    requires Plain(disk) && position <= size
    ensures PlanFrom(disk, size, position) == Plan(ChunksFrom(size, position) + 1, AtEnd)
    decreases size - position
  {
    var left := size - position;
    assert disk.give(position, CHUNK) == CHUNK;
    if left > 0 {
      PlainPlan(disk, size, position + Given(disk, position, left, CHUNK));
    }
  }

  /** From an offset on no chunk of n bytes meets a failing write. */
  predicate WritableFrom(disk: Disk, n: nat, offset: nat)
    decreases n - offset
  {
    offset >= n || (disk.writeFails(offset).None? && WritableFrom(disk, n, offset + CHUNK))
  }
}
