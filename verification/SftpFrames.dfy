/** The frames of a chunk, in both directions, and their sizes. */
module SftpFrames {
  import opened Text
  import opened Base64
  import opened SftpFiles

  const MAX_RPC_FRAME_BYTES: nat := 768 * 1024

  function WriteFrame(sequence: nat, handle: nat, base64: string): string {
    "{\"type\":\"request\",\"id\":\"r" + Decimal(sequence) + "\",\"method\":\"sftpWriteChunk\",\"params\":{\"handleId\":"
    + Decimal(handle) + ",\"base64\":\"" + base64 + "\"}}"
  }

  function ChunkFrame(sequence: nat, base64: string, eof: bool): string {
    "{\"type\":\"response\",\"id\":\"r" + Decimal(sequence) + "\",\"ok\":true,\"result\":{\"base64\":\""
    + base64 + "\",\"eof\":" + (if eof then "true" else "false") + "}}"
  }

  /** JavaScript counts exactly up to 2^53. */
  const MAX_SAFE: nat := 9007199254740992

  lemma PowersOfTen()
    ensures Pow10(16) == 10000000000000000
  {
    assert Pow10(4) == 10000;
    assert Pow10(8) == 100000000;
    assert Pow10(12) == 1000000000000;
  }

  lemma NumberFits(n: nat)
    requires n <= MAX_SAFE
    ensures |Decimal(n)| <= 16
  {
    PowersOfTen();
    DecimalLength(n, 16);
  }

  /** A full chunk is at most 699052 base64 characters. */
  lemma ChunkTextFits(data: Bytes)
    requires |data| <= CHUNK
    ensures |Encode(data)| <= 699052
  {
    EncodeLength(data);
  }

  lemma WriteFrameLength(sequence: nat, handle: nat, base64: string)
    ensures |WriteFrame(sequence, handle, base64)| == |Decimal(sequence)| + |Decimal(handle)| + |base64| + 88
  {
  }

  lemma ChunkFrameLength(sequence: nat, base64: string, eof: bool)
    ensures |ChunkFrame(sequence, base64, eof)| <= |Decimal(sequence)| + |base64| + 73
  {
  }

  /** Every chunk request of the client fits the frame limit. */
  lemma WriteFrameFits(data: Bytes, sequence: nat, handle: nat)
    requires |data| <= CHUNK && sequence <= MAX_SAFE && handle <= MAX_SAFE
    ensures |WriteFrame(sequence, handle, Encode(data))| <= 786432 == MAX_RPC_FRAME_BYTES
  {
    ChunkTextFits(data);
    NumberFits(sequence);
    NumberFits(handle);
    WriteFrameLength(sequence, handle, Encode(data));
  }

  /** Every chunk response of the session fits it too. */
  lemma ChunkFrameFits(data: Bytes, sequence: nat, eof: bool)
    requires |data| <= CHUNK && sequence <= MAX_SAFE
    ensures |ChunkFrame(sequence, Encode(data), eof)| <= 786432 == MAX_RPC_FRAME_BYTES
  {
    ChunkTextFits(data);
    NumberFits(sequence);
    ChunkFrameLength(sequence, Encode(data), eof);
  }
}
