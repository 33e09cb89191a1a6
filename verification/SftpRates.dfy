/** Which transfers get through the rate limiter: small ones always, paced ones always, large bursts never. */
module SftpRates {
  import opened RateLimiter
  import opened SftpFiles
  import opened SftpRequests
  import opened SftpTransfer

  /** From a full bucket a transfer of at most 40 requests gets through, whenever they come. */
  lemma SmallTransferPasses(b: Bucket, clock: nat -> int, n: nat)
    requires b.tokens == BURST && n <= 40
    ensures GetThrough(b, clock, n)
  {
    FortyAlwaysPass(b, Times(clock, n));
    GetThroughIsAllPass(b, clock, n);
  }

  /** A client that leaves at least 50 ms between its requests transfers files of any size. */
  lemma PacedTransferPasses(b: Bucket, clock: nat -> int, n: nat)
    requires b.tokens == BURST && forall i: nat, j: nat :: i < j < n ==> clock(j) - clock(i) >= 50
    ensures GetThrough(b, clock, n)
  {
    SteadySenderPasses(b, Times(clock, n));
    GetThroughIsAllPass(b, clock, n);
  }

  lemma ChunkCountAtMost(n: nat, k: nat)
    ensures ChunkCount(n) <= k <==> n <= k * CHUNK
  {
    ChunkCountIsCeiling(n);
  }

  /** With no time between its requests a write gets through from a full bucket exactly up to 38 chunks, 19 MiB. */
  lemma BurstWriteExactly(b: Bucket, n: nat)
    requires b.tokens == BURST
    ensures GetThrough(b, _ => b.last, WriteRequests(n)) <==> n <= 38 * CHUNK
  {
    var k := WriteRequests(n);
    assert Times(_ => b.last, k) == seq(k, _ => b.last);
    GetThroughIsAllPass(b, _ => b.last, k);
    BurstPassesExactly(b, k);
    ChunkCountAtMost(n, 38);
  }

  /** So the 42 requests of a 20 MiB write sent at once end the session. */
  lemma LargeBurstIsLost(b: Bucket)
    requires b.tokens == BURST
    ensures WriteRequests(20 * 1024 * 1024) == 42
    ensures !GetThrough(b, _ => b.last, WriteRequests(20 * 1024 * 1024))
  {
    BurstWriteExactly(b, 20 * 1024 * 1024);
    ChunkCountAtMost(20 * 1024 * 1024, 40);
    ChunkCountAtMost(20 * 1024 * 1024, 39);
  }

  /** A plain file of n bytes is read in as many requests as it is written, and one more for its end. */
  lemma PlainRequests(disk: Disk, n: nat)
    requires Plain(disk)
    ensures ReadRequests(disk, n) == WriteRequests(n) + 1
    ensures WritableFrom(disk, n, 0) && PlanFrom(disk, n, 0).ending == AtEnd
  {
    PlainPlan(disk, n, 0);
    PlainWrites(disk, n, 0);
  }

  lemma {:induction false} PlainWrites(disk: Disk, n: nat, offset: nat)
    requires Plain(disk)
    ensures WritableFrom(disk, n, offset)
    decreases n - offset
  {
    if offset < n {
      assert disk.give(offset, 0) == 0;
      PlainWrites(disk, n, offset + CHUNK);
    }
  }
}
