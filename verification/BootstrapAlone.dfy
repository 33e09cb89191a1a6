/**
 A lone runner: how many steps are left, and that every step uses up exactly one of them.
 */
module BootstrapAlone {
  import opened Common
  import opened BootstrapModel
  import opened KvPaging
  import opened BootstrapProtocol
  import opened BootstrapSafety
  import opened BootstrapTheorems

  /** Number of chunks of size b that n items fill. */
  function Chunks(n: nat, b: nat): nat
    requires b > 0
  {
    if n == 0 then 0 else if n <= b then 1 else 1 + Chunks(n - b, b)
  }

  lemma {:induction false} ChunksIsCeiling(n: nat, b: nat)
    requires b > 0
    ensures (Chunks(n, b) - 1) * b < n || n == 0
    ensures n <= Chunks(n, b) * b
  {
    if n > b {
      ChunksIsCeiling(n - b, b);
      assert (Chunks(n, b) - 1) * b == (Chunks(n - b, b) - 1) * b + b;
      assert Chunks(n, b) * b == Chunks(n - b, b) * b + b;
    }
  }

  function AtLeastOnce(n: nat, b: nat): nat
    requires b > 0
  {
    if n == 0 then 1 else Chunks(n, b)
  }

  /** Steps until `complete`, from the row and the keys still in KV. */
  function StepsLeft(env: Env, row: Row, kv: map<Id, Envelope>): nat
    requires env.kvBatch > 0 && env.verifyBatch > 0 && env.cleanupBatch > 0
    requires From(row.cursor) <= |env.keys| && row.processed <= |env.keys|
  {
    var n := |env.keys|;
    match row.phase
    case KvScan =>
      AtLeastOnce(n - From(row.cursor), env.kvBatch) + AtLeastOnce(n, env.kvBatch)
      + AtLeastOnce(n, env.verifyBatch) + Chunks(|kv|, env.cleanupBatch) + 1
    case KvMigrate =>
      AtLeastOnce(n - From(row.cursor), env.kvBatch) + AtLeastOnce(n, env.verifyBatch)
      + Chunks(|kv|, env.cleanupBatch) + 1
    case Verify => AtLeastOnce(n - row.processed, env.verifyBatch) + Chunks(|kv|, env.cleanupBatch) + 1
    case KvCleanup => Chunks(|kv|, env.cleanupBatch) + 1
    case Complete => 0
  }

  /** The key opens and parses as the connection it is stored under. */
  predicate Good(env: Env, k: Id) {
    k in env.values && env.open(env.values[k]).Some? && env.parses(env.open(env.values[k]).value.plaintext, k)
  }

  // ---- counting keys ----

  function Present(keys: seq<Id>, kv: map<Id, Envelope>, pos: nat): nat
    decreases |keys| - pos
  {
    if pos >= |keys| then 0 else (if keys[pos] in kv then 1 else 0) + Present(keys, kv, pos + 1)
  }

  lemma {:induction false} NamesCount(keys: seq<Id>, kv: map<Id, Envelope>, pos: nat, limit: nat)
    ensures |Names(keys, kv, pos, limit)| == Min(limit, Present(keys, kv, pos))
    decreases |keys| - pos
  {
    if limit != 0 && pos < |keys| {
      NamesCount(keys, kv, pos + 1, if keys[pos] in kv then limit - 1 else limit);
    }
  }

  lemma {:induction false} NamesDistinct(keys: seq<Id>, kv: map<Id, Envelope>, pos: nat, limit: nat)
    requires forall i, j :: 0 <= i < j < |keys| ==> keys[i] != keys[j]
    ensures forall k :: k in Names(keys, kv, pos, limit) ==> exists i :: pos <= i < |keys| && keys[i] == k
    ensures forall i, j :: 0 <= i < j < |Names(keys, kv, pos, limit)| ==>
              Names(keys, kv, pos, limit)[i] != Names(keys, kv, pos, limit)[j]
    decreases |keys| - pos
  {
    if limit != 0 && pos < |keys| {
      NamesDistinct(keys, kv, pos + 1, if keys[pos] in kv then limit - 1 else limit);
      if keys[pos] in kv {
        var rest := Names(keys, kv, pos + 1, limit - 1);
        assert Names(keys, kv, pos, limit) == [keys[pos]] + rest;
        assert keys[pos] !in rest;
      }
    }
  }

  /** The keys present from a position on. */
  function PresentSet(keys: seq<Id>, kv: map<Id, Envelope>, pos: nat): set<Id>
    requires pos <= |keys|
  {
    set k | k in kv && k in keys[pos..]
  }

  lemma PresentSetStep(keys: seq<Id>, kv: map<Id, Envelope>, pos: nat)
    requires pos < |keys| && forall i, j :: 0 <= i < j < |keys| ==> keys[i] != keys[j]
    ensures |PresentSet(keys, kv, pos)| == |PresentSet(keys, kv, pos + 1)| + if keys[pos] in kv then 1 else 0
  {
    var rest := PresentSet(keys, kv, pos + 1);
    assert keys[pos..] == [keys[pos]] + keys[pos + 1..];
    assert PresentSet(keys, kv, pos) == rest + (if keys[pos] in kv then {keys[pos]} else {});
  }

  lemma {:induction false} PresentIsSize(keys: seq<Id>, kv: map<Id, Envelope>, pos: nat)
    requires pos <= |keys|
    requires forall i, j :: 0 <= i < j < |keys| ==> keys[i] != keys[j]
    ensures Present(keys, kv, pos) == |PresentSet(keys, kv, pos)|
    decreases |keys| - pos
  {
    if pos < |keys| {
      PresentIsSize(keys, kv, pos + 1);
      PresentSetStep(keys, kv, pos);
    } else {
      assert PresentSet(keys, kv, pos) == {};
    }
  }

  lemma {:induction false} DistinctSize(names: seq<Id>)
    requires forall i, j :: 0 <= i < j < |names| ==> names[i] != names[j]
    ensures |Elems(names)| == |names|
    decreases |names|
  {
    if names != [] {
      var n := |names| - 1;
      DistinctSize(names[..n]);
      assert Elems(names) == Elems(names[..n]) + {names[n]} by {
        assert names == names[..n] + [names[n]];
      }
    }
  }

  lemma RemovedSize(kv: map<Id, Envelope>, gone: set<Id>)
    requires gone <= kv.Keys
    ensures |kv - gone| == |kv| - |gone|
  {
    assert (kv - gone).Keys == kv.Keys - gone;
    assert |kv - gone| == |(kv - gone).Keys| && |kv| == |kv.Keys|;
  }

  /** A cleanup page takes min(batch, remaining) keys away. */
  lemma CleanupShrinks(env: Env, kv: map<Id, Envelope>)
    requires ValidEnv(env) && forall k :: k in kv ==> k in env.values
    ensures var names := ListKv(env.keys, kv, 0, env.cleanupBatch).names;
            && |names| == Min(env.cleanupBatch, |kv|)
            && |kv - Elems(names)| == |kv| - |names|
  {
    var names := Names(env.keys, kv, 0, env.cleanupBatch);
    NamesCount(env.keys, kv, 0, env.cleanupBatch);
    NamesPresent(env.keys, kv, 0, env.cleanupBatch);
    NamesDistinct(env.keys, kv, 0, env.cleanupBatch);
    AllPresent(env, kv);
    DistinctSize(names);
    RemovedSize(kv, Elems(names));
  }

  lemma AllPresent(env: Env, kv: map<Id, Envelope>)
    requires ValidEnv(env) && forall k :: k in kv ==> k in env.values
    ensures Present(env.keys, kv, 0) == |kv|
  {
    PresentIsSize(env.keys, kv, 0);
    assert env.keys[0..] == env.keys;
    assert PresentSet(env.keys, kv, 0) == kv.Keys;
    assert |kv| == |kv.Keys|;
  }

  lemma FullSize(env: Env, m: map<Id, Envelope>)
    requires ValidEnv(env) && m.Keys == env.values.Keys
    ensures |m| == |env.keys|
  {
    DistinctSize(env.keys);
    assert Elems(env.keys) == m.Keys;
    assert |m| == |m.Keys|;
  }

  // ---- one step uses one ----

  lemma ChunksStep(n: nat, b: nat)
    requires b > 0
    ensures AtLeastOnce(n, b) == if n <= b then 1 else 1 + AtLeastOnce(n - b, b)
    ensures n > 0 ==> Chunks(n, b) == 1 + Chunks(n - Min(b, n), b)
  {
  }

  /** A phase step of a runner that nobody disturbs between listing a page and committing it. */
  ghost predicate LoneStep(env: Env, s: System, after: Row) {
    PhaseStep(env, s, |ListKv(env.keys, s.kv, 0, env.cleanupBatch).names|, after)
  }

  /** The page of a KV phase: how far it goes, and when it is the last. */
  lemma PageUsesOne(env: Env, kv: map<Id, Envelope>, pos: nat)
    requires ValidEnv(env) && kv == env.values && pos <= |env.keys|
    ensures var page := ListKv(env.keys, kv, pos, env.kvBatch); var left := AtLeastOnce(|env.keys| - pos, env.kvBatch);
            && From(page.next) <= |env.keys|
            && if page.next.None? then left == 1 else left == 1 + AtLeastOnce(|env.keys| - From(page.next), env.kvBatch)
  {
    FullList(env, kv, pos, env.kvBatch);
    ChunksStep(|env.keys| - pos, env.kvBatch);
  }

  lemma ScanStepUsesOne(env: Env, s: System, after: Row)
    requires ValidEnv(env) && RowOk(env, s.row, s.kv, s.conns) && LoneStep(env, s, after)
    requires s.row.phase == KvScan && after.processed <= |env.keys|
    ensures From(after.cursor) <= |env.keys|
    ensures StepsLeft(env, s.row, s.kv) == StepsLeft(env, after, s.kv) + 1
  {
    PageUsesOne(env, s.kv, From(s.row.cursor));
  }

  lemma MigrateStepUsesOne(env: Env, s: System, after: Row)
    requires ValidEnv(env) && RowOk(env, s.row, s.kv, s.conns) && LoneStep(env, s, after)
    requires s.row.phase == KvMigrate && after.processed <= |env.keys|
    ensures From(after.cursor) <= |env.keys|
    ensures StepsLeft(env, s.row, s.kv) == StepsLeft(env, after, s.kv) + 1
  {
    PageUsesOne(env, s.kv, From(s.row.cursor));
  }

  lemma VerifyStepUsesOne(env: Env, s: System, after: Row)
    requires ValidEnv(env) && RowOk(env, s.row, s.kv, s.conns) && LoneStep(env, s, after)
    requires s.row.phase == Verify && s.row.cursor == None && after.processed <= |env.keys|
    ensures StepsLeft(env, s.row, s.kv) == StepsLeft(env, after, s.kv) + 1
  {
    FullSelect(env, s.conns, s.row.processed, env.verifyBatch);
    ChunksStep(|env.keys| - s.row.processed, env.verifyBatch);
  }

  /** The same in numbers: a page of a cleanup that has n keys left. */
  lemma CleanupCountsDown(env: Env, row: Row, after: Row, kv: map<Id, Envelope>, left: map<Id, Envelope>, listed: nat)
    requires ValidEnv(env) && row.phase == KvCleanup && row.cursor == None && row.processed <= |env.keys|
    requires after.cursor == None && after.processed <= |env.keys|
    requires after.phase == if listed == 0 then Complete else KvCleanup
    requires listed == Min(env.cleanupBatch, |kv|) && |left| == |kv| - listed
    ensures StepsLeft(env, row, kv) == StepsLeft(env, after, left) + 1
  {
    ChunksStep(|kv|, env.cleanupBatch);
  }

  lemma CleanupStepUsesOne(env: Env, s: System, after: Row)
    requires ValidEnv(env) && StoresOk(env, s.kv, s.conns) && RowOk(env, s.row, s.kv, s.conns) && LoneStep(env, s, after)
    requires s.row.phase == KvCleanup && s.row.cursor == None && after.processed <= |env.keys|
    ensures var left := s.kv - Elems(ListKv(env.keys, s.kv, 0, env.cleanupBatch).names);
            StepsLeft(env, s.row, s.kv) == StepsLeft(env, after, left) + 1
  {
    var names := ListKv(env.keys, s.kv, 0, env.cleanupBatch).names;
    CleanupShrinks(env, s.kv);
    CleanupCountsDown(env, s.row, after, s.kv, s.kv - Elems(names), |names|);
  }

  /** From the start: 2 max(1, n/b) + max(1, n/v) + n/c + 1 steps, each quotient rounded up. */
  lemma StepsFromStart(env: Env)
    requires ValidEnv(env)
    ensures var n := |env.keys|;
            StepsLeft(env, InitialRow(), env.values) ==
            2 * Max(1, Chunks(n, env.kvBatch)) + Max(1, Chunks(n, env.verifyBatch)) + Chunks(n, env.cleanupBatch) + 1
  {
    FullSize(env, env.values);
  }
}
