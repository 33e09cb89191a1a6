/**
 The token bucket of a session. Tokens are counted in thousandths, so that one
 millisecond is worth exactly 20 of them.
 */
module RateLimiter {
  import opened Common

  const TOKEN: int := 1000
  const BURST: int := 40 * TOKEN
  const PER_MS: int := 20

  datatype Bucket = Bucket(tokens: int, last: int)

  function Refilled(b: Bucket, now: int): Bucket {
    Bucket(Min(BURST, b.tokens + Max(0, now - b.last) * PER_MS), now)
  }

  function Passes(b: Bucket, now: int): bool {
    Refilled(b, now).tokens >= TOKEN
  }

  function Consumed(b: Bucket, now: int): Bucket {
    var r := Refilled(b, now);
    if r.tokens < TOKEN then r else r.(tokens := r.tokens - TOKEN)
  }

  function After(b: Bucket, times: seq<int>): Bucket {
    if times == [] then b else Consumed(After(b, times[..|times| - 1]), times[|times| - 1])
  }

  /** Every request of the sequence passes. */
  ghost predicate AllPass(b: Bucket, times: seq<int>) {
    forall i :: 0 <= i < |times| ==> Passes(After(b, times[..i]), times[i])
  }

  ghost predicate Ordered(b: Bucket, times: seq<int>) {
    && (forall i :: 0 <= i < |times| ==> b.last <= times[i])
    && (forall i, j :: 0 <= i < j < |times| ==> times[i] <= times[j])
  }

  lemma {:induction false} AfterLast(b: Bucket, times: seq<int>)
    requires times != []
    ensures After(b, times).last == times[|times| - 1]
  {
  }

  lemma {:induction false} AfterRange(b: Bucket, times: seq<int>)
    requires 0 <= b.tokens <= BURST
    ensures 0 <= After(b, times).tokens <= BURST
    decreases |times|
  {
    if times != [] {
      AfterRange(b, times[..|times| - 1]);
    }
  }

  /** Each pass costs one token, and tokens only come back with time. */
  lemma {:induction false} Spent(b: Bucket, times: seq<int>, i: nat, j: nat)
    requires 0 <= b.tokens <= BURST && Ordered(b, times) && AllPass(b, times)
    requires i < j <= |times|
    ensures After(b, times[..j]).tokens + (j - i) * TOKEN <= BURST + (times[j - 1] - times[i]) * PER_MS
    decreases j
  {
    var before := After(b, times[..j - 1]);
    assert times[..j][..j - 1] == times[..j - 1];
    assert Passes(before, times[j - 1]);
    AfterRange(b, times[..j - 1]);
    if i + 1 < j {
      Spent(b, times, i, j - 1);
      AfterLast(b, times[..j - 1]);
      assert times[j - 2] <= times[j - 1];
    }
  }

  /** In any interval [s, t] at most 40 + 20 (t - s) / 1000 requests pass. */
  lemma IntervalBound(b: Bucket, times: seq<int>, i: nat, j: nat, s: int, t: int)
    requires 0 <= b.tokens <= BURST && Ordered(b, times) && AllPass(b, times)
    requires i < j <= |times| && s <= times[i] && times[j - 1] <= t
    ensures (j - i) * 1000 <= 40 * 1000 + 20 * (t - s)
  {
    Spent(b, times, i, j);
    AfterRange(b, times[..j]);
  }

  ghost predicate Steady(times: seq<int>) {
    forall i, j :: 0 <= i < j < |times| ==> times[j] - times[i] >= 50
  }

  /** 50 ms give one token back. */
  lemma OneSteadyStep(b: Bucket, now: int)
    requires b.tokens >= BURST || (b.tokens >= BURST - TOKEN && now - b.last >= 50)
    ensures Passes(b, now) && Consumed(b, now).tokens >= BURST - TOKEN
  {
  }

  /** A sender that leaves at least 50 ms between requests is never refused. */
  lemma {:induction false} SteadySenderPasses(b: Bucket, times: seq<int>)
    requires b.tokens == BURST && Steady(times)
    ensures AllPass(b, times)
    ensures times != [] ==> After(b, times).tokens >= BURST - TOKEN
    decreases |times|
  {
    if times != [] {
      var n := |times| - 1;
      SteadySenderPasses(b, times[..n]);
      if n > 0 { AfterLast(b, times[..n]); }
      OneSteadyStep(After(b, times[..n]), times[n]);
      PassesOneMore(b, times, n);
    }
  }

  lemma PassesOneMore(b: Bucket, times: seq<int>, n: nat)
    requires |times| == n + 1 && AllPass(b, times[..n]) && Passes(After(b, times[..n]), times[n])
    ensures AllPass(b, times)
  {
    forall i | 0 <= i < |times| ensures Passes(After(b, times[..i]), times[i]) {
      if i < n { assert times[..n][..i] == times[..i] && times[..n][i] == times[i]; }
    }
  }

  /** The bound is tight: of requests at one instant exactly 40 pass. */
  lemma {:induction false} BurstDrains(b: Bucket, n: nat)
    requires b.tokens == BURST && n <= 40
    ensures After(b, seq(n, _ => b.last)).tokens == BURST - n * TOKEN
    ensures Passes(After(b, seq(n, _ => b.last)), b.last) <==> n < 40
    decreases n
  {
    var times := seq(n, _ => b.last);
    if n > 0 {
      BurstDrains(b, n - 1);
      assert times[..n - 1] == seq(n - 1, _ => b.last);
      if n > 1 { AfterLast(b, times[..n - 1]); }
    }
  }

  // ---- sequences of requests ----

  lemma {:induction false} AtLeastLeft(b: Bucket, times: seq<int>)
    requires b.tokens == BURST && |times| <= 40
    ensures After(b, times).tokens >= BURST - |times| * TOKEN
    decreases |times|
  {
    if times != [] { AtLeastLeft(b, times[..|times| - 1]); }
  }

  /** From a full bucket any 40 requests pass, whenever they come. */
  lemma FortyAlwaysPass(b: Bucket, times: seq<int>)
    requires b.tokens == BURST && |times| <= 40
    ensures AllPass(b, times)
  {
    forall i | 0 <= i < |times| ensures Passes(After(b, times[..i]), times[i]) {
      AtLeastLeft(b, times[..i]);
    }
  }

  /** Requests at one instant all pass a full bucket exactly when they are at most 40. */
  lemma BurstPassesExactly(b: Bucket, n: nat)
    requires b.tokens == BURST
    ensures AllPass(b, seq(n, _ => b.last)) <==> n <= 40
  {
    var times := seq(n, _ => b.last);
    if n <= 40 {
      FortyAlwaysPass(b, times);
    } else {
      BurstDrains(b, 40);
      assert times[..40] == seq(40, _ => b.last);
      assert !Passes(After(b, times[..40]), times[40]);
    }
  }
}
