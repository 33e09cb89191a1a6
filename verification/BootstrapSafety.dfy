/**
 What every run of the bootstrap keeps, in every interleaving: only the lease holder moves
 the row, each move is one phase step of the row as it stands, and no connection is lost.
 */
module BootstrapSafety {
  import opened Common
  import opened BootstrapModel
  import opened KvPaging
  import opened BootstrapProtocol

  function Rank(p: Phase): nat {
    match p
    case KvScan => 0
    case KvMigrate => 1
    case Verify => 2
    case KvCleanup => 3
    case Complete => 4
  }

  ghost predicate SameData(a: Row, b: Row) {
    a.phase == b.phase && a.cursor == b.cursor && a.processed == b.processed && a.total == b.total
  }

  /** The payload opens to the plaintext that KV originally held for this id: the same envelope if that was v3, else a v3 one. */
  ghost predicate Faithful(env: Env, id: Id, payload: Envelope) {
    && id in env.values
    && env.open(env.values[id]).Some? && env.open(payload).Some?
    && env.open(payload).value.plaintext == env.open(env.values[id]).value.plaintext
    && env.parses(env.open(payload).value.plaintext, id)
    && PayloadOk(env, env.values[id], payload)
  }

  ghost predicate StoresOk(env: Env, kv: map<Id, Envelope>, conns: map<Id, Envelope>) {
    && (forall k :: k in kv ==> k in env.values && kv[k] == env.values[k])
    && (forall k :: k in conns ==> Faithful(env, k, conns[k]))
  }

  ghost predicate RowOk(env: Env, row: Row, kv: map<Id, Envelope>, conns: map<Id, Envelope>) {
    var n := |env.keys|;
    match row.phase
    case KvScan => kv == env.values && row.processed == 0 && row.total == From(row.cursor) <= n
    case KvMigrate =>
      && kv == env.values && row.total == n && row.processed == From(row.cursor) <= n
      && forall i :: 0 <= i < From(row.cursor) ==> env.keys[i] in conns
    case Verify => row.cursor == None && kv == env.values && AllIn(env, conns) && row.total == n && row.processed <= n
    case KvCleanup => row.cursor == None && AllIn(env, conns) && row.total == n && row.processed <= n
    case Complete => row.cursor == None && kv == map[] && AllIn(env, conns) && row.total == row.processed == n
  }

  ghost predicate LeaseOk(row: Row, runners: map<Owner, Runner>) {
    && (row.owner.Some? <==> row.status == Running)
    && (row.status == Finished <==> row.phase == Complete)
    && (row.owner.Some? ==> row.owner.value in runners && SameData(row, runners[row.owner.value].snap))
  }

  /** What any runner, stale or not, may rely on. */
  ghost predicate StaleOk(env: Env, row: Row, kv: map<Id, Envelope>, conns: map<Id, Envelope>, r: Runner) {
    && Rank(r.snap.phase) <= Rank(row.phase) && r.snap.phase != Complete
    && match r.work {
         case Listed(_) => r.snap.phase == KvScan || r.snap.phase == KvMigrate
         case Checking(page, values, index, writes) =>
           && r.snap.phase == KvMigrate && index <= |page.names|
           && (forall k :: k in values ==> k in env.values && values[k] == env.values[k])
           && (forall w :: w in writes ==> Faithful(env, w.id, w.payload))
           && (forall j :: 0 <= j < index && page.names[j] in values ==>
                 page.names[j] in conns || exists w :: w in writes && w.id == page.names[j])
         case Verifying(_, _) => r.snap.phase == Verify
         case Counted(_) => r.snap.phase == Verify
         case Cleaning(names, _) => r.snap.phase == KvCleanup && |names| <= env.cleanupBatch && (names == [] ==> kv == map[])
         case _ => true
       }
  }

  /** What the lease holder knows besides: what it read is still what a read would give now. */
  ghost predicate OwnerOk(env: Env, kv: map<Id, Envelope>, conns: map<Id, Envelope>, r: Runner) {
    match r.work
    case Listed(page) => page == ListKv(env.keys, kv, From(r.snap.cursor), env.kvBatch)
    case Checking(page, values, _, _) =>
      && page == ListKv(env.keys, kv, From(r.snap.cursor), env.kvBatch)
      && forall k :: k in page.names ==> k in values
    case Verifying(rows, _) => |rows| == |Select(env, conns, r.snap.processed, env.verifyBatch)|
    case Counted(rows) => |rows| == |Select(env, conns, r.snap.processed, env.verifyBatch)|
    case _ => true
  }

  ghost predicate RunnerOk(env: Env, row: Row, kv: map<Id, Envelope>, conns: map<Id, Envelope>, o: Owner, r: Runner) {
    StaleOk(env, row, kv, conns, r) && (row.owner == Some(o) ==> OwnerOk(env, kv, conns, r))
  }

  ghost predicate Inv(env: Env, s: System) {
    && StoresOk(env, s.kv, s.conns)
    && RowOk(env, s.row, s.kv, s.conns)
    && LeaseOk(s.row, s.runners)
    && forall o :: o in s.runners ==> RunnerOk(env, s.row, s.kv, s.conns, o, s.runners[o])
  }

  lemma InitialOk(env: Env)
    requires ValidEnv(env)
    ensures Inv(env, Initial(env))
  {
  }

  // ---- the other runners ----

  /** How one call may change the shared state, seen from a runner that is not making it. */
  ghost predicate Evolves(s: System, t: System) {
    && Rank(s.row.phase) <= Rank(t.row.phase)
    && (forall k :: k in s.conns ==> k in t.conns)
    && (forall k :: k in t.kv ==> k in s.kv)
  }

  lemma BystanderOk(env: Env, s: System, t: System, o: Owner)
    requires ValidEnv(env) && Inv(env, s) && o in s.runners
    requires Evolves(s, t) && StoresOk(env, t.kv, t.conns) && RowOk(env, t.row, t.kv, t.conns)
    requires t.row.owner == Some(o) ==> s.row.owner == Some(o) && SameData(s.row, t.row)
    ensures RunnerOk(env, t.row, t.kv, t.conns, o, s.runners[o])
  {
    var r := s.runners[o];
    assert RunnerOk(env, s.row, s.kv, s.conns, o, r);
    if r.work.Cleaning? && r.work.names == [] {
      assert t.kv == map[];
    }
    if t.row.owner == Some(o) {
      if r.snap.phase == Verify {
        SelectSame(env, s.conns, t.conns, r.snap.processed);
      }
      if r.work.Listed? || r.work.Checking? {
        assert s.kv == t.kv == env.values;
      }
    }
  }

  lemma SelectSame(env: Env, a: map<Id, Envelope>, b: map<Id, Envelope>, offset: nat)
    requires AllIn(env, a) && AllIn(env, b) && offset <= |env.keys|
    ensures Select(env, a, offset, env.verifyBatch) == Select(env, b, offset, env.verifyBatch)
  {
    FullSelect(env, a, offset, env.verifyBatch);
    FullSelect(env, b, offset, env.verifyBatch);
  }

  /** Putting the pieces together after a call of runner o that leaves it at r. */
  lemma StepOk(env: Env, s: System, t: System, o: Owner, r: Runner)
    requires ValidEnv(env) && Inv(env, s)
    requires t.runners == s.runners[o := r]
    requires Evolves(s, t) && StoresOk(env, t.kv, t.conns) && RowOk(env, t.row, t.kv, t.conns)
    requires LeaseOk(t.row, t.runners)
    requires RunnerOk(env, t.row, t.kv, t.conns, o, r)
    requires forall p :: p in s.runners && p != o && t.row.owner == Some(p) ==> s.row.owner == Some(p) && SameData(s.row, t.row)
    ensures Inv(env, t)
  {
    forall p | p in t.runners ensures RunnerOk(env, t.row, t.kv, t.conns, p, t.runners[p]) {
      if p != o { BystanderOk(env, s, t, p); }
    }
  }

  /** A call that changes nothing but the progress of the runner that makes it. */
  lemma LocalStep(env: Env, s: System, o: Owner, r: Runner)
    requires ValidEnv(env) && Inv(env, s) && o in s.runners && r.snap == s.runners[o].snap
    requires RunnerOk(env, s.row, s.kv, s.conns, o, r)
    ensures Inv(env, At(s, o, r))
  {
    StepOk(env, s, At(s, o, r), o, r);
  }

  // ---- one call at a time ----

  lemma KeepAcquire(env: Env, s: System, o: Owner, now: int)
    requires ValidEnv(env) && Inv(env, s) && Enabled(env, s, Acquire(o, now))
    ensures Inv(env, Apply(env, s, Acquire(o, now)))
  {
    match Acquired(s.row, o, now) {
      case None =>
      case Some(row) =>
        var t := Apply(env, s, Acquire(o, now));
        StepOk(env, s, t, o, t.runners[o]);
    }
  }

  lemma KeepRetry(env: Env, s: System)
    requires ValidEnv(env) && Inv(env, s)
    ensures Inv(env, Apply(env, s, Retry))
  {
    var t := Apply(env, s, Retry);
    forall o | o in t.runners ensures RunnerOk(env, t.row, t.kv, t.conns, o, t.runners[o]) {
      BystanderOk(env, s, t, o);
    }
  }

  /** Moving the expiry alone changes nothing else. */
  lemma RenewedOk(env: Env, s: System, row: Row)
    requires ValidEnv(env) && Inv(env, s) && row == s.row.(expires := row.expires)
    ensures Inv(env, s.(row := row))
  {
    var t := s.(row := row);
    assert RowOk(env, row, s.kv, s.conns);
    forall o | o in t.runners ensures RunnerOk(env, t.row, t.kv, t.conns, o, t.runners[o]) {
      assert RunnerOk(env, s.row, s.kv, s.conns, o, s.runners[o]);
    }
  }

  lemma KeepRenew(env: Env, s: System, o: Owner, now: int)
    requires ValidEnv(env) && Inv(env, s) && Enabled(env, s, Renew(o, now))
    ensures Inv(env, Apply(env, s, Renew(o, now)))
  {
    var r := s.runners[o];
    assert RunnerOk(env, s.row, s.kv, s.conns, o, r);
    if Holds(s.row, o) {
      var t := s.(row := s.row.(expires := Some(now + BOOTSTRAP_LEASE_MS)));
      RenewedOk(env, s, t.row);
      LocalStep(env, t, o, r.(renewed := true));
    } else {
      LocalStep(env, s, o, r.(work := Failing(LeaseLost)));
    }
  }

  lemma KeepList(env: Env, s: System, o: Owner)
    requires ValidEnv(env) && Inv(env, s) && Enabled(env, s, ListPage(o))
    ensures Inv(env, Apply(env, s, ListPage(o)))
  {
    assert RunnerOk(env, s.row, s.kv, s.conns, o, s.runners[o]);
    var t := Apply(env, s, ListPage(o));
    NamesPresent(env.keys, s.kv, 0, env.cleanupBatch);
    if s.runners[o].snap.phase == KvCleanup && Names(env.keys, s.kv, 0, env.cleanupBatch) == [] {
      EmptyList(env.keys, s.kv, 0, env.cleanupBatch);
      assert forall k :: k in env.keys ==> k !in s.kv;
      assert s.kv.Keys == {};
    }
    LocalStep(env, s, o, t.runners[o]);
  }

  lemma KeepGetValues(env: Env, s: System, o: Owner)
    requires ValidEnv(env) && Inv(env, s) && Enabled(env, s, GetValues(o))
    ensures Inv(env, Apply(env, s, GetValues(o)))
  {
    var r := s.runners[o];
    assert RunnerOk(env, s.row, s.kv, s.conns, o, r);
    var t := Apply(env, s, GetValues(o));
    if s.row.owner == Some(o) {
      NamesPresent(env.keys, s.kv, From(r.snap.cursor), env.kvBatch);
    }
    LocalStep(env, s, o, t.runners[o]);
  }

  /** A checked key is in the table, about to be written with the same plaintext, or the runner fails. */
  lemma CheckedKey(env: Env, s: System, r: Runner, sealed: Envelope)
    requires StoresOk(env, s.kv, s.conns) && StaleOk(env, s.row, s.kv, s.conns, r)
    requires r.work.Checking? && r.work.index < |r.work.page.names|
    requires var name := r.work.page.names[r.work.index];
             KeyVerdict(env, r.work.values, s.conns, name) == Ok(true) ==>
               name in r.work.values && PayloadOk(env, r.work.values[name], sealed)
    ensures var name := r.work.page.names[r.work.index];
            match KeyVerdict(env, r.work.values, s.conns, name)
            case Err(_) => true
            case Ok(insert) => if insert then Faithful(env, name, sealed) else name in r.work.values ==> name in s.conns
  {
  }

  /** The checked key joins the keys that are in the table or queued. */
  lemma CheckedKeyJoins(env: Env, conns: map<Id, Envelope>, page: Page, values: map<Id, Envelope>, i: nat,
                        writes: seq<Write>, after: seq<Write>, insert: bool, sealed: Envelope)
    requires i < |page.names|
    requires forall j :: 0 <= j < i && page.names[j] in values ==>
               page.names[j] in conns || exists w :: w in writes && w.id == page.names[j]
    requires after == if insert then writes + [Write(page.names[i], sealed)] else writes
    requires !insert && page.names[i] in values ==> page.names[i] in conns
    ensures forall j :: 0 <= j < i + 1 && page.names[j] in values ==>
              page.names[j] in conns || exists w :: w in after && w.id == page.names[j]
  {
    assert forall w :: w in writes ==> w in after;
    if insert { assert after[|writes|].id == page.names[i]; }
  }

  lemma CheckedKeyStale(env: Env, s: System, o: Owner, sealed: Envelope)
    requires Inv(env, s) && Enabled(env, s, CheckKey(o, sealed))
    ensures StaleOk(env, s.row, s.kv, s.conns, Apply(env, s, CheckKey(o, sealed)).runners[o])
  {
    var r := s.runners[o];
    assert RunnerOk(env, s.row, s.kv, s.conns, o, r);
    CheckedKey(env, s, r, sealed);
    var u := ApplyCheckKey(env, s, o, sealed).runners[o];
    if u.work.Checking? {
      CheckedKeyJoins(env, s.conns, r.work.page, r.work.values, r.work.index, r.work.writes, u.work.writes,
                      KeyVerdict(env, r.work.values, s.conns, r.work.page.names[r.work.index]).value, sealed);
    }
  }

  lemma CheckedKeyOwner(env: Env, s: System, o: Owner, sealed: Envelope)
    requires Enabled(env, s, CheckKey(o, sealed)) && OwnerOk(env, s.kv, s.conns, s.runners[o])
    ensures OwnerOk(env, s.kv, s.conns, ApplyCheckKey(env, s, o, sealed).runners[o])
  {
  }

  lemma KeepCheckKey(env: Env, s: System, o: Owner, sealed: Envelope)
    requires ValidEnv(env) && Inv(env, s) && Enabled(env, s, CheckKey(o, sealed))
    ensures Inv(env, Apply(env, s, CheckKey(o, sealed)))
  {
    assert RunnerOk(env, s.row, s.kv, s.conns, o, s.runners[o]);
    CheckedKeyStale(env, s, o, sealed);
    var r := ApplyCheckKey(env, s, o, sealed).runners[o];
    if s.row.owner == Some(o) { CheckedKeyOwner(env, s, o, sealed); }
    LocalStep(env, s, o, r);
    assert Apply(env, s, CheckKey(o, sealed)) == At(s, o, r);
  }

  lemma KeepSelectRows(env: Env, s: System, o: Owner)
    requires ValidEnv(env) && Inv(env, s) && Enabled(env, s, SelectRows(o))
    ensures Inv(env, Apply(env, s, SelectRows(o)))
  {
    assert RunnerOk(env, s.row, s.kv, s.conns, o, s.runners[o]);
    LocalStep(env, s, o, Apply(env, s, SelectRows(o)).runners[o]);
  }

  lemma KeepCheckRow(env: Env, s: System, o: Owner)
    requires ValidEnv(env) && Inv(env, s) && Enabled(env, s, CheckRow(o))
    ensures Inv(env, Apply(env, s, CheckRow(o)))
  {
    assert RunnerOk(env, s.row, s.kv, s.conns, o, s.runners[o]);
    LocalStep(env, s, o, ApplyCheckRow(env, s, o).runners[o]);
  }

  lemma KeepCountRows(env: Env, s: System, o: Owner)
    requires ValidEnv(env) && Inv(env, s) && Enabled(env, s, CountRows(o))
    ensures Inv(env, Apply(env, s, CountRows(o)))
  {
    assert RunnerOk(env, s.row, s.kv, s.conns, o, s.runners[o]);
    LocalStep(env, s, o, ApplyCount(s, o).runners[o]);
  }

  lemma KeepDelete(env: Env, s: System, o: Owner, k: Id)
    requires ValidEnv(env) && Inv(env, s) && Enabled(env, s, DeleteKey(o, k))
    ensures Inv(env, Apply(env, s, DeleteKey(o, k)))
  {
    assert RunnerOk(env, s.row, s.kv, s.conns, o, s.runners[o]);
    var t := Apply(env, s, DeleteKey(o, k));
    StepOk(env, s, t, o, t.runners[o]);
  }

  lemma KeepEnd(env: Env, s: System, o: Owner, a: Action)
    requires ValidEnv(env) && Inv(env, s) && Enabled(env, s, a)
    requires a == Throw(o) || a == RecordFailure(o)
    ensures Inv(env, Apply(env, s, a))
  {
    assert RunnerOk(env, s.row, s.kv, s.conns, o, s.runners[o]);
    var t := Apply(env, s, a);
    StepOk(env, s, t, o, t.runners[o]);
  }

  // ---- the commits ----

  lemma {:induction false} InsertedOk(env: Env, conns: map<Id, Envelope>, writes: seq<Write>)
    requires forall k :: k in conns ==> Faithful(env, k, conns[k])
    requires forall w :: w in writes ==> Faithful(env, w.id, w.payload)
    ensures forall k :: k in conns ==> k in Inserted(conns, writes)
    ensures forall w :: w in writes ==> w.id in Inserted(conns, writes)
    ensures forall k :: k in Inserted(conns, writes) ==> Faithful(env, k, Inserted(conns, writes)[k])
    decreases |writes|
  {
    if writes != [] {
      var n := |writes| - 1;
      assert writes == writes[..n] + [writes[n]];
      InsertedOk(env, conns, writes[..n]);
    }
  }

  lemma CommitScan(env: Env, s: System, o: Owner)
    requires ValidEnv(env) && Inv(env, s) && Enabled(env, s, Commit(o)) && s.runners[o].work.Listed?
    ensures Inv(env, Apply(env, s, Commit(o)))
  {
    var r := s.runners[o];
    assert RunnerOk(env, s.row, s.kv, s.conns, o, r);
    var t := Apply(env, s, Commit(o));
    if s.row.owner == Some(o) {
      FullList(env, s.kv, From(r.snap.cursor), env.kvBatch);
    }
    StepOk(env, s, t, o, t.runners[o]);
  }

  /** The holder's page is a slice of the key list, and every key of it is now in the table. */
  lemma MigratedPage(env: Env, s: System, o: Owner, conns: map<Id, Envelope>)
    requires ValidEnv(env) && Inv(env, s) && o in s.runners && s.row.owner == Some(o)
    requires s.runners[o].work.Checking? && s.runners[o].work.index == |s.runners[o].work.page.names|
    requires forall k :: k in s.conns ==> k in conns
    requires forall w :: w in s.runners[o].work.writes ==> w.id in conns
    ensures s.row.phase == KvMigrate && From(s.row.cursor) <= |env.keys|
    ensures s.runners[o].work.page == ListKv(env.keys, env.values, From(s.row.cursor), env.kvBatch)
    ensures forall k :: k in s.runners[o].work.page.names ==> k in conns
  {
    var r := s.runners[o];
    assert RunnerOk(env, s.row, s.kv, s.conns, o, r);
    forall k | k in r.work.page.names ensures k in conns {
      var j :| 0 <= j < |r.work.page.names| && r.work.page.names[j] == k;
      assert r.work.page.names[j] in r.work.values;
    }
  }

  /** The new rows of a batch are its writes; the rows that were there stay as they are. */
  lemma {:induction false} InsertedRows(conns: map<Id, Envelope>, writes: seq<Write>)
    requires !Conflict(conns, writes)
    ensures forall k :: k in conns ==> k in Inserted(conns, writes) && Inserted(conns, writes)[k] == conns[k]
    ensures forall k :: k in Inserted(conns, writes) && k !in conns ==> Write(k, Inserted(conns, writes)[k]) in writes
    decreases |writes|
  {
    if writes != [] {
      var n := |writes| - 1;
      assert writes == writes[..n] + [writes[n]];
      InsertedRows(conns, writes[..n]);
    }
  }

  /** A batch that does not conflict, on sound stores. */
  lemma BatchInserted(env: Env, kv: map<Id, Envelope>, conns: map<Id, Envelope>, writes: seq<Write>)
    requires StoresOk(env, kv, conns) && !Conflict(conns, writes)
    requires forall w :: w in writes ==> Faithful(env, w.id, w.payload)
    ensures StoresOk(env, kv, Inserted(conns, writes)) && OnlyAdds(conns, Inserted(conns, writes))
    ensures forall w :: w in writes ==> w.id in Inserted(conns, writes)
  {
    InsertedOk(env, conns, writes);
    InsertedRows(conns, writes);
  }

  /** Every row stays, with its payload. */
  ghost predicate OnlyAdds(conns: map<Id, Envelope>, more: map<Id, Envelope>) {
    forall k :: k in conns ==> k in more && more[k] == conns[k]
  }

  lemma RowOkGrows(env: Env, row: Row, kv: map<Id, Envelope>, conns: map<Id, Envelope>, more: map<Id, Envelope>)
    requires RowOk(env, row, kv, conns) && OnlyAdds(conns, more)
    ensures RowOk(env, row, kv, more)
  {
  }

  lemma KeepMigrateStale(env: Env, s: System, o: Owner)
    requires ValidEnv(env) && Inv(env, s) && Enabled(env, s, Commit(o)) && s.runners[o].work.Checking?
    requires s.row.owner != Some(o) && !Conflict(s.conns, s.runners[o].work.writes)
    ensures Inv(env, Apply(env, s, Commit(o)))
  {
    var t, writes := ApplyCommit(env, s, o), s.runners[o].work.writes;
    assert RunnerOk(env, s.row, s.kv, s.conns, o, s.runners[o]);
    BatchInserted(env, s.kv, s.conns, writes);
    RowOkGrows(env, s.row, s.kv, s.conns, Inserted(s.conns, writes));
    StepOk(env, s, t, o, t.runners[o]);
  }

  lemma KeepMigrateConflict(env: Env, s: System, o: Owner)
    requires ValidEnv(env) && Inv(env, s) && Enabled(env, s, Commit(o)) && s.runners[o].work.Checking?
    requires Conflict(s.conns, s.runners[o].work.writes)
    ensures Inv(env, Apply(env, s, Commit(o)))
  {
    var t := ApplyCommit(env, s, o);
    assert RunnerOk(env, s.row, s.kv, s.conns, o, s.runners[o]);
    StepOk(env, s, t, o, t.runners[o]);
  }

  /**
   The batch of a runner that has lost the lease touches neither KV nor the row. It fails as a whole, or it adds rows
   that the migration wants anyway, beside those already there.
   */
  lemma CommitMigrateStale(env: Env, s: System, o: Owner)
    requires ValidEnv(env) && Inv(env, s) && Enabled(env, s, Commit(o)) && s.runners[o].work.Checking?
    requires s.row.owner != Some(o)
    ensures var t := Apply(env, s, Commit(o));
            && t.row == s.row && t.kv == s.kv && StoresOk(env, t.kv, t.conns) && OnlyAdds(s.conns, t.conns)
            && (Conflict(s.conns, s.runners[o].work.writes) ==>
                  t.conns == s.conns && t.runners[o].work == Failing(InternalError))
            && forall k :: k in t.conns ==> k in env.keys
  {
    assert RunnerOk(env, s.row, s.kv, s.conns, o, s.runners[o]);
    var writes := s.runners[o].work.writes;
    if !Conflict(s.conns, writes) { BatchInserted(env, s.kv, s.conns, writes); }
  }

  /** After a page the first keys up to the new cursor are in the table. */
  lemma MigratedPrefix(env: Env, conns: map<Id, Envelope>, from: nat)
    requires ValidEnv(env) && from <= |env.keys|
    requires forall i :: 0 <= i < from ==> env.keys[i] in conns
    requires forall k :: k in ListKv(env.keys, env.values, from, env.kvBatch).names ==> k in conns
    ensures var stop := Min(from + env.kvBatch, |env.keys|);
            && ListKv(env.keys, env.values, from, env.kvBatch).next == (if stop == |env.keys| then None else Some(stop))
            && |ListKv(env.keys, env.values, from, env.kvBatch).names| == stop - from
            && forall i :: 0 <= i < stop ==> env.keys[i] in conns
  {
    FullList(env, env.values, from, env.kvBatch);
    var stop := Min(from + env.kvBatch, |env.keys|);
    forall i | from <= i < stop ensures env.keys[i] in conns {
      assert env.keys[from..stop][i - from] in env.keys[from..stop];
    }
  }

  /** The table has every key of a page at the cursor, so the row may move one page. */
  lemma PageLanded(env: Env, row: Row, snap: Row, kv: map<Id, Envelope>, conns: map<Id, Envelope>, more: map<Id, Envelope>)
    requires ValidEnv(env) && RowOk(env, row, kv, conns) && row.phase == KvMigrate && SameData(row, snap)
    requires OnlyAdds(conns, more)
    requires forall k :: k in ListKv(env.keys, kv, From(row.cursor), env.kvBatch).names ==> k in more
    ensures RowOk(env, MigrateCommit(row, snap, ListKv(env.keys, kv, From(row.cursor), env.kvBatch)), kv, more)
  {
    MigratedPrefix(env, more, From(row.cursor));
    if ListKv(env.keys, kv, From(row.cursor), env.kvBatch).next.None? {
      assert forall k :: k in env.keys ==> k in more;
    }
  }

  /** The row one page further. */
  ghost predicate PageMoved(env: Env, row: Row, after: Row) {
    var page := ListKv(env.keys, env.values, From(row.cursor), env.kvBatch);
    && after.cursor == page.next && after.total == row.total
    && after.phase == (if page.next.None? then Verify else KvMigrate)
    && after.processed == (if page.next.None? then 0 else Min(row.total, row.processed + |page.names|))
    && after.status == Pending && after.owner == None && after.expires == None
  }

  /**
   The batch of the holder, unless it conflicts, puts every key of the page at the cursor into the table, beside the
   rows already there, and moves the row by that page.
   */
  lemma CommitMigrateOwned(env: Env, s: System, o: Owner)
    requires ValidEnv(env) && Inv(env, s) && Enabled(env, s, Commit(o)) && s.runners[o].work.Checking?
    requires s.row.owner == Some(o) && !Conflict(s.conns, s.runners[o].work.writes)
    ensures var t := Apply(env, s, Commit(o));
            && PageMoved(env, s.row, t.row) && t.kv == s.kv && OnlyAdds(s.conns, t.conns) && StoresOk(env, t.kv, t.conns)
            && forall k :: k in ListKv(env.keys, env.values, From(s.row.cursor), env.kvBatch).names ==> k in t.conns
  {
    var r, t := s.runners[o], ApplyCommit(env, s, o);
    assert RunnerOk(env, s.row, s.kv, s.conns, o, r);
    BatchInserted(env, s.kv, s.conns, r.work.writes);
    MigratedPage(env, s, o, t.conns);
  }

  lemma OwnedRowOk(env: Env, s: System, o: Owner)
    requires ValidEnv(env) && Inv(env, s) && Enabled(env, s, Commit(o)) && s.runners[o].work.Checking?
    requires s.row.owner == Some(o) && !Conflict(s.conns, s.runners[o].work.writes)
    ensures var t := ApplyCommit(env, s, o); RowOk(env, t.row, t.kv, t.conns)
  {
    var r, t := s.runners[o], ApplyCommit(env, s, o);
    assert RunnerOk(env, s.row, s.kv, s.conns, o, r);
    BatchInserted(env, s.kv, s.conns, r.work.writes);
    MigratedPage(env, s, o, t.conns);
    PageLanded(env, s.row, r.snap, s.kv, s.conns, t.conns);
  }

  lemma KeepMigrateOwned(env: Env, s: System, o: Owner)
    requires ValidEnv(env) && Inv(env, s) && Enabled(env, s, Commit(o)) && s.runners[o].work.Checking?
    requires s.row.owner == Some(o) && !Conflict(s.conns, s.runners[o].work.writes)
    ensures Inv(env, Apply(env, s, Commit(o)))
  {
    var t := ApplyCommit(env, s, o);
    assert RunnerOk(env, s.row, s.kv, s.conns, o, s.runners[o]);
    CommitMigrateOwned(env, s, o);
    OwnedRowOk(env, s, o);
    StepOk(env, s, t, o, t.runners[o]);
  }

  lemma CommitMigrate(env: Env, s: System, o: Owner)
    requires ValidEnv(env) && Inv(env, s) && Enabled(env, s, Commit(o)) && s.runners[o].work.Checking?
    ensures Inv(env, Apply(env, s, Commit(o)))
  {
    if Conflict(s.conns, s.runners[o].work.writes) {
      KeepMigrateConflict(env, s, o);
    } else if s.row.owner == Some(o) {
      KeepMigrateOwned(env, s, o);
    } else {
      KeepMigrateStale(env, s, o);
    }
  }

  lemma CommitVerify(env: Env, s: System, o: Owner)
    requires ValidEnv(env) && Inv(env, s) && Enabled(env, s, Commit(o))
    requires s.runners[o].work.Verifying? || s.runners[o].work.Counted?
    ensures Inv(env, Apply(env, s, Commit(o)))
  {
    var r := s.runners[o];
    assert RunnerOk(env, s.row, s.kv, s.conns, o, r);
    var t := Apply(env, s, Commit(o));
    if s.row.owner == Some(o) {
      FullSelect(env, s.conns, r.snap.processed, env.verifyBatch);
    }
    StepOk(env, s, t, o, t.runners[o]);
  }

  lemma CommitCleanup(env: Env, s: System, o: Owner)
    requires ValidEnv(env) && Inv(env, s) && Enabled(env, s, Commit(o)) && s.runners[o].work.Cleaning?
    ensures Inv(env, Apply(env, s, Commit(o)))
  {
    assert RunnerOk(env, s.row, s.kv, s.conns, o, s.runners[o]);
    var t := Apply(env, s, Commit(o));
    StepOk(env, s, t, o, t.runners[o]);
  }

  lemma KeepCommit(env: Env, s: System, o: Owner)
    requires ValidEnv(env) && Inv(env, s) && Enabled(env, s, Commit(o))
    ensures Inv(env, Apply(env, s, Commit(o)))
  {
    match s.runners[o].work
    case Listed(_) => CommitScan(env, s, o);
    case Checking(_, _, _, _) => CommitMigrate(env, s, o);
    case Cleaning(_, _) => CommitCleanup(env, s, o);
    case _ => CommitVerify(env, s, o);
  }

  /** Every call of every runner keeps the invariant. */
  lemma StepKeeps(env: Env, s: System, a: Action)
    requires ValidEnv(env) && Inv(env, s) && Enabled(env, s, a)
    ensures Inv(env, Apply(env, s, a))
  {
    match a
    case Acquire(o, now) => KeepAcquire(env, s, o, now);
    case Retry => KeepRetry(env, s);
    case Renew(o, now) => KeepRenew(env, s, o, now);
    case ListPage(o) => KeepList(env, s, o);
    case GetValues(o) => KeepGetValues(env, s, o);
    case CheckKey(o, sealed) => KeepCheckKey(env, s, o, sealed);
    case SelectRows(o) => KeepSelectRows(env, s, o);
    case CheckRow(o) => KeepCheckRow(env, s, o);
    case CountRows(o) => KeepCountRows(env, s, o);
    case DeleteKey(o, k) => KeepDelete(env, s, o, k);
    case Commit(o) => KeepCommit(env, s, o);
    case Throw(o) => KeepEnd(env, s, o, a);
    case RecordFailure(o) => KeepEnd(env, s, o, a);
  }
}
