/**
 The leased migration from KV to D1: the bootstrap row, the two stores, the paging of
 KV, and the local progress of a runner between two database calls.
 */
module BootstrapModel {
  import opened Common
  import opened KvPaging

  type Owner = string

  const BOOTSTRAP_LEASE_MS: int := 60000

  datatype Phase = KvScan | KvMigrate | Verify | KvCleanup | Complete

  datatype Status = Pending | Running | Failed | Finished

  datatype ErrorCode =
    | KvConnectionInvalid
    | D1ConnectionConflict
    | D1VerificationFailed
    | LeaseLost
    | InternalError

  datatype Row = Row(
    status: Status, phase: Phase, processed: nat, total: nat, cursor: Option<nat>,
    error: Option<ErrorCode>, owner: Option<Owner>, expires: Option<int>)

  /**
   What a migration works with: the ids of the `conn:` keys in listing order, their values,
   how an envelope opens (or fails to), which plaintexts parse as the connection of an id,
   and the batch sizes.
   */
  datatype Env = Env(
    keys: seq<Id>, values: map<Id, Envelope>,
    open: Envelope -> Option<Opened>, parses: (string, Id) -> bool,
    kvBatch: nat, verifyBatch: nat, cleanupBatch: nat)

  ghost predicate ValidEnv(env: Env) {
    && (forall i, j :: 0 <= i < j < |env.keys| ==> env.keys[i] != env.keys[j])
    && (forall k :: k in env.values <==> k in env.keys)
    && 1 <= env.kvBatch && 1 <= env.verifyBatch && 1 <= env.cleanupBatch
  }

  // ---- full pages ----

  function Elems(names: seq<Id>): set<Id> {
    set k | k in names
  }

  function From(cursor: Option<nat>): nat {
    if cursor.Some? then cursor.value else 0
  }

  ghost predicate AllIn(env: Env, m: map<Id, Envelope>) {
    forall k :: k in env.keys ==> k in m
  }

  /** With every key present a page is a slice of the key list. */
  lemma {:induction false} FullPage(env: Env, kv: map<Id, Envelope>, pos: nat, limit: nat)
    requires AllIn(env, kv) && pos <= |env.keys|
    ensures var stop := Min(pos + limit, |env.keys|);
            && Names(env.keys, kv, pos, limit) == env.keys[pos..stop]
            && Stop(env.keys, kv, pos, limit) == stop
    decreases |env.keys| - pos
  {
    if limit != 0 && pos < |env.keys| {
      FullPage(env, kv, pos + 1, limit - 1);
      var stop := Min(pos + limit, |env.keys|);
      assert env.keys[pos] in kv;
      assert env.keys[pos..stop] == [env.keys[pos]] + env.keys[pos + 1..stop];
    } else {
      assert env.keys[pos..Min(pos + limit, |env.keys|)] == [];
    }
  }

  lemma FullList(env: Env, kv: map<Id, Envelope>, pos: nat, limit: nat)
    requires AllIn(env, kv) && pos <= |env.keys|
    ensures var stop := Min(pos + limit, |env.keys|);
            ListKv(env.keys, kv, pos, limit) ==
            Page(env.keys[pos..stop], if stop == |env.keys| then None else Some(stop))
  {
    FullPage(env, kv, pos, limit);
    FullPage(env, kv, Min(pos + limit, |env.keys|), 1);
  }

  /** `ORDER BY id LIMIT limit OFFSET offset` over the table. */
  function Select(env: Env, conns: map<Id, Envelope>, offset: nat, limit: nat): seq<Id> {
    var ids := Names(env.keys, conns, 0, |env.keys|);
    if offset >= |ids| then [] else ids[offset..Min(offset + limit, |ids|)]
  }

  lemma FullSelect(env: Env, conns: map<Id, Envelope>, offset: nat, limit: nat)
    requires AllIn(env, conns) && offset <= |env.keys|
    ensures Select(env, conns, offset, limit) == env.keys[offset..Min(offset + limit, |env.keys|)]
  {
    FullPage(env, conns, 0, |env.keys|);
    assert env.keys[0..|env.keys|] == env.keys;
  }
}
