/**
 The bootstrap as one runner executes it, call by call, and the polling loop that drives it
 to a terminal state.
 */
module BootstrapRunner {
  import opened Common
  import opened BootstrapModel
  import opened KvPaging
  import opened BootstrapProtocol
  import opened BootstrapSafety
  import opened BootstrapAlone

  class DatabaseBootstrap {
    const env: Env
    const encrypt: string -> Envelope
    var row: Row
    var kv: map<Id, Envelope>
    var conns: map<Id, Envelope>

    /** The stores hold what they should, and what is encrypted can be opened. */
    ghost predicate Sound()
      reads this`kv, this`conns
    {
      && ValidEnv(env) && StoresOk(env, kv, conns)
      && forall p :: env.open(encrypt(p)) == Some(Opened(p, V3))
    }

    ghost predicate Valid()
      reads this
    {
      && Sound() && RowOk(env, row, kv, conns)
      && (row.status == Finished <==> row.phase == Complete)
      && (row.owner.Some? <==> row.status == Running)
    }

    /** No lease is held, so the next step will get it. */
    ghost predicate Idle()
      reads this
    {
      Valid() && row.owner == None && row.expires == None
    }

    constructor (env: Env, encrypt: string -> Envelope)
      requires ValidEnv(env)
      requires forall p :: env.open(encrypt(p)) == Some(Opened(p, V3))
      ensures Idle() && this.env == env && row == InitialRow() && kv == env.values && conns == map[]
    {
      this.env, this.encrypt := env, encrypt;
      row, kv, conns := InitialRow(), env.values, map[];
    }

    ghost function State(): System
      reads this
    {
      System(row, kv, conns, map[])
    }

    /** The guarded heartbeat: false means the lease is lost. */
    method RenewLease(o: Owner, now: int) returns (held: bool)
      modifies this`row
      ensures held == Holds(old(row), o)
      ensures row == if held then old(row).(expires := Some(now + BOOTSTRAP_LEASE_MS)) else old(row)
      ensures old(Valid()) ==> Valid()
    {
      held := row.owner == Some(o) && row.status == Running;
      if held { row := row.(expires := Some(now + BOOTSTRAP_LEASE_MS)); }
    }

    method ScanKv(snap: Row, o: Owner, now: int) returns (failure: Option<ErrorCode>)
      requires Valid() && Holds(row, o) && SameData(row, snap) && row.phase == KvScan
      modifies this`row
      ensures Valid() && failure == None && LoneStep(env, old(State()), row)
      ensures row.status == Pending && row.owner == None && row.expires == None
    {
      var held := RenewLease(o, now);
      if !held { return Some(LeaseLost); }
      var page := ListKv(env.keys, kv, From(snap.cursor), env.kvBatch);
      held := RenewLease(o, now);
      if !held { return Some(LeaseLost); }
      ghost var before := State();
      CommitScan(snap, o, page);
      LoneStepSame(env, old(State()), before, row);
      failure := None;
    }

    /** The guarded update of the row after a scanned page. */
    method CommitScan(snap: Row, o: Owner, page: Page)
      requires Valid() && Holds(row, o) && SameData(row, snap) && row.phase == KvScan
      requires page == ListKv(env.keys, kv, From(snap.cursor), env.kvBatch)
      modifies this`row
      ensures Valid() && LoneStep(env, old(State()), row)
      ensures row.status == Pending && row.owner == None && row.expires == None
    {
      FullList(env, kv, From(snap.cursor), env.kvBatch);
      if row.owner == Some(o) { row := ScanCommit(row, snap, page); }
    }

    /** One key of the page: skip it, queue its insert, or fail. */
    method MigrateKey(name: Id, values: map<Id, Envelope>, writes: seq<Write>)
      returns (r: Result<seq<Write>, ErrorCode>)
      requires Sound() && name in values && name in env.values && values[name] == env.values[name]
      ensures r.Ok? <==> Good(env, name)
      ensures r.Err? ==> r == Err(KvConnectionInvalid)
      ensures r.Ok? ==> if name in conns then r.value == writes
                        else |r.value| == |writes| + 1 && r.value[..|writes|] == writes
                             && r.value[|writes|].id == name && Faithful(env, name, r.value[|writes|].payload)
    {
      var decrypted := env.open(values[name]);
      if decrypted.None? { return Err(KvConnectionInvalid); }
      if !env.parses(decrypted.value.plaintext, name) { return Err(KvConnectionInvalid); }
      if name in conns {
        assert Faithful(env, name, conns[name]);
        var current := env.open(conns[name]);
        if current.None? { return Err(D1ConnectionConflict); }
        if !env.parses(current.value.plaintext, name) { return Err(KvConnectionInvalid); }
        return Ok(writes);
      }
      var payload := if decrypted.value.version == V3 then values[name] else encrypt(decrypted.value.plaintext);
      r := Ok(writes + [Write(name, payload)]);
    }

    /** The loop over the keys of a page, with a heartbeat before each key. */
    method CheckPage(names: seq<Id>, values: map<Id, Envelope>, o: Owner, now: int) returns (r: Result<seq<Write>, ErrorCode>)
      requires Valid() && Holds(row, o)
      requires forall i, j :: 0 <= i < j < |names| ==> names[i] != names[j]
      requires forall k :: k in names ==> k in values && k in env.values && values[k] == env.values[k]
      modifies this`row
      ensures Valid() && Holds(row, o) && row == old(row).(expires := row.expires)
      ensures r.Ok? <==> AllGood(env, names)
      ensures r.Ok? ==> Queued(env, conns, names, r.value)
      ensures r.Err? ==> r == Err(KvConnectionInvalid)
    {
      var writes: seq<Write> := [];
      var i := 0;
      while i < |names|
        invariant 0 <= i <= |names|
        invariant Valid() && Holds(row, o) && row == old(row).(expires := row.expires)
        invariant AllGood(env, names[..i])
        invariant Queued(env, conns, names[..i], writes)
      {
        var held := RenewLease(o, now);
        if !held { return Err(LeaseLost); }
        assert names[i] in names && names[i] !in names[..i];
        var next := MigrateKey(names[i], values, writes);
        if next.Err? { return next; }
        CheckedOneMore(env, conns, names, i, writes, next.value);
        writes := next.value;
        i := i + 1;
      }
      assert names[..i] == names;
      r := Ok(writes);
    }

    method MigrateKv(snap: Row, o: Owner, now: int) returns (failure: Option<ErrorCode>)
      requires Valid() && Holds(row, o) && SameData(row, snap) && row.phase == KvMigrate
      modifies this`row, this`conns
      ensures Valid()
      ensures var names := ListKv(env.keys, old(kv), From(snap.cursor), env.kvBatch).names;
              if !AllGood(env, names)
              then
                && failure == Some(KvConnectionInvalid) && conns == old(conns)
                && SameData(row, old(row)) && Holds(row, o)
              else
                && failure == None && LoneStep(env, old(State()), row)
                && row.status == Pending && row.owner == None && row.expires == None
                && conns.Keys == old(conns).Keys + Elems(names)
    {
      var held := RenewLease(o, now);
      if !held { return Some(LeaseLost); }
      var page := ListKv(env.keys, kv, From(snap.cursor), env.kvBatch);
      ListedNames(env, kv, From(snap.cursor), page.names);
      var checked := CheckPage(page.names, Restrict(kv, page.names), o, now);
      if checked.Err? { return Some(checked.error); }
      held := RenewLease(o, now);
      if !held { return Some(LeaseLost); }
      ghost var before := State();
      failure := WritePage(snap, o, page, checked.value);
      LoneStepSame(env, old(State()), before, row);
    }

    /** The batch of a page: its inserts and the guarded update of the row. */
    method WritePage(snap: Row, o: Owner, page: Page, writes: seq<Write>) returns (failure: Option<ErrorCode>)
      requires Valid() && Holds(row, o) && SameData(row, snap) && row.phase == KvMigrate
      requires page == ListKv(env.keys, kv, From(snap.cursor), env.kvBatch)
      requires Queued(env, conns, page.names, writes)
      modifies this`row, this`conns
      ensures Valid() && failure == None && LoneStep(env, old(State()), row)
      ensures row.status == Pending && row.owner == None && row.expires == None
      ensures conns.Keys == old(conns).Keys + Elems(page.names)
    {
      QueuedInserts(env, conns, page.names, writes);
      if Conflict(conns, writes) { return Some(InternalError); }
      PageWritten(env, State(), snap, page, Inserted(conns, writes));
      assert StoresOk(env, kv, Inserted(conns, writes));
      conns := Inserted(conns, writes);
      if row.owner == Some(o) { row := MigrateCommit(row, snap, page); }
      assert row == MigrateCommit(old(row), snap, page);
      failure := None;
    }

    /** The loop that opens every row of a verification page. */
    method CheckRows(ids: seq<Id>, o: Owner, now: int) returns (failure: Option<ErrorCode>)
      requires Valid() && Holds(row, o)
      requires forall k :: k in ids ==> k in conns
      modifies this`row
      ensures Valid() && Holds(row, o) && row == old(row).(expires := row.expires)
      ensures failure == None
    {
      var i := 0;
      while i < |ids|
        invariant 0 <= i <= |ids|
        invariant Valid() && Holds(row, o) && row == old(row).(expires := row.expires)
      {
        var held := RenewLease(o, now);
        if !held { return Some(LeaseLost); }
        assert ids[i] in ids && Faithful(env, ids[i], conns[ids[i]]);
        var found := env.open(conns[ids[i]]);
        if found.None? || !env.parses(found.value.plaintext, ids[i]) { return Some(D1VerificationFailed); }
        i := i + 1;
      }
      failure := None;
    }

    /** The count of the whole table, once the last page is checked. */
    method CheckCount(snap: Row, o: Owner, now: int, count: nat) returns (failure: Option<ErrorCode>)
      requires Valid() && Holds(row, o) && SameData(row, snap) && row.phase == Verify
      requires count == |Select(env, conns, snap.processed, env.verifyBatch)| && VerifyDone(env, snap, count)
      modifies this`row
      ensures Valid() && Holds(row, o) && row == old(row).(expires := row.expires)
      ensures failure == None && snap.processed + count == snap.total
    {
      var held := RenewLease(o, now);
      if !held { return Some(LeaseLost); }
      FullSelect(env, conns, snap.processed, env.verifyBatch);
      AllRowsCounted(env, conns);
      if |conns| != snap.total || snap.processed + count != snap.total { return Some(D1VerificationFailed); }
      failure := None;
    }

    method VerifyD1(snap: Row, o: Owner, now: int) returns (failure: Option<ErrorCode>)
      requires Valid() && Holds(row, o) && SameData(row, snap) && row.phase == Verify
      modifies this`row
      ensures Valid() && failure == None && LoneStep(env, old(State()), row)
      ensures row.status == Pending && row.owner == None && row.expires == None
    {
      var held := RenewLease(o, now);
      if !held { return Some(LeaseLost); }
      var ids := Select(env, conns, snap.processed, env.verifyBatch);
      FullSelect(env, conns, snap.processed, env.verifyBatch);
      failure := CheckRows(ids, o, now);
      if failure.Some? { return; }
      if VerifyDone(env, snap, |ids|) {
        failure := CheckCount(snap, o, now, |ids|);
        if failure.Some? { return; }
      }
      held := RenewLease(o, now);
      if !held { return Some(LeaseLost); }
      ghost var before := State();
      CommitRows(snap, o, |ids|);
      LoneStepSame(env, old(State()), before, row);
    }

    /** The guarded update of the row after a verified page. */
    method CommitRows(snap: Row, o: Owner, count: nat)
      requires Valid() && Holds(row, o) && SameData(row, snap) && row.phase == Verify
      requires count == |Select(env, conns, snap.processed, env.verifyBatch)|
      requires VerifyDone(env, snap, count) ==> snap.processed + count == snap.total
      requires snap.processed + count <= |env.keys|
      modifies this`row
      ensures Valid() && LoneStep(env, old(State()), row)
      ensures row.status == Pending && row.owner == None && row.expires == None
    {
      if row.owner == Some(o) { row := VerifyCommit(env, row, snap, count); }
    }

    /** The deletes of a cleanup page. */
    method DeleteAll(names: seq<Id>)
      modifies this`kv
      ensures kv == old(kv) - Elems(names)
    {
      var i := 0;
      assert kv == old(kv) - Elems(names[..0]);
      while i < |names|
        invariant 0 <= i <= |names|
        invariant kv == old(kv) - Elems(names[..i])
      {
        assert names[..i + 1] == names[..i] + [names[i]];
        assert Elems(names[..i + 1]) == Elems(names[..i]) + {names[i]};
        kv := kv - {names[i]};
        i := i + 1;
      }
      assert names[..i] == names;
    }

    method CleanupKv(snap: Row, o: Owner, now: int) returns (failure: Option<ErrorCode>)
      requires Valid() && Holds(row, o) && SameData(row, snap) && row.phase == KvCleanup
      modifies this`row, this`kv
      ensures Valid() && failure == None && LoneStep(env, old(State()), row)
      ensures kv == old(kv) - Elems(ListKv(env.keys, old(kv), 0, env.cleanupBatch).names)
      ensures row.phase == Complete <==> old(kv) == map[]
      ensures row.owner == None && row.expires == None
      ensures row.status == Pending || row.status == Finished
    {
      var held := RenewLease(o, now);
      if !held { return Some(LeaseLost); }
      var names := ListKv(env.keys, kv, 0, env.cleanupBatch).names;
      ghost var before := State();
      DeleteAll(names);
      held := RenewLease(o, now);
      if !held { return Some(LeaseLost); }
      failure := CommitPage(snap, o, names, before);
      LoneStepSame(env, old(State()), before, row);
    }

    /** The guarded update of the row after a cleaned page. */
    method CommitPage(snap: Row, o: Owner, names: seq<Id>, ghost before: System) returns (failure: Option<ErrorCode>)
      requires ValidEnv(env) && StoresOk(env, before.kv, before.conns) && RowOk(env, before.row, before.kv, before.conns)
      requires Sound() && Holds(row, o) && SameData(row, before.row) && SameData(before.row, snap) && before.row.phase == KvCleanup
      requires names == ListKv(env.keys, before.kv, 0, env.cleanupBatch).names
      requires kv == before.kv - Elems(names) && conns == before.conns
      modifies this`row
      ensures Valid() && failure == None && LoneStep(env, before, row)
      ensures row.phase == Complete <==> before.kv == map[]
      ensures row.owner == None && row.expires == None
      ensures row.status == Pending || row.status == Finished
    {
      RowCleaned(env, before, snap, row);
      CleanedRowOk(env, before, snap, row, names);
      if row.owner == Some(o) { row := CleanupCommit(row, snap, |names|); }
      failure := None;
    }

    /** The phase of the row, run by the lease holder. */
    method RunPhase(snap: Row, o: Owner, now: int) returns (failure: Option<ErrorCode>)
      requires Valid() && Holds(row, o) && SameData(row, snap) && row.phase != Complete
      modifies this
      ensures Valid()
      ensures BadPage(env, old(State())) ==>
                && failure == Some(KvConnectionInvalid) && Holds(row, o) && SameData(row, old(row))
                && kv == old(kv) && conns == old(conns)
      ensures !BadPage(env, old(State())) ==>
                && failure == None && Progress(env, old(State()), State())
                && row.owner == None && row.expires == None && (row.status == Pending || row.status == Finished)
    {
      match snap.phase {
        case KvScan => failure := ScanKv(snap, o, now);
        case KvMigrate => failure := MigrateKv(snap, o, now);
        case Verify => failure := VerifyD1(snap, o, now);
        case KvCleanup => failure := CleanupKv(snap, o, now);
      }
    }

    /** The row is pending, or was left running, and no lease on it is still good. */
    ghost predicate Takeable(now: int)
      reads this`row
    {
      (row.status == Pending || row.status == Running) && (row.expires == None || row.expires.value < now)
    }

    /** One call of step by a runner that nobody disturbs while it works: it stays out of a lease that is still good. */
    method Step(o: Owner, now: int)
      requires Valid()
      modifies this
      ensures Valid() && (old(Idle()) ==> Idle())
      ensures !old(Takeable(now)) ==> State() == old(State())
      ensures old(Takeable(now)) && BadPage(env, old(State())) ==>
                && row.status == Failed && row.error == Some(KvConnectionInvalid) && SameData(row, old(row))
                && kv == old(kv) && conns == old(conns)
      ensures old(Takeable(now)) && !BadPage(env, old(State())) ==>
                row.status != Failed && row.owner == None && row.expires == None && Progress(env, old(State()), State())
    {
      var state := Acquired(row, o, now);
      if state.None? { return; }
      Relabelled(env, State(), state.value);
      row := state.value;
      var failure := RunPhase(state.value, o, now);
      if failure.Some? { row := FailedRow(row, o, failure.value); }
    }

    method Retry()
      requires Idle()
      modifies this`row
      ensures Idle()
      ensures row == if old(row).status == Failed then old(row).(status := Pending, error := None) else old(row)
    {
      row := Retried(row);
    }
  }

  /** A phase step reads the data of the row only, not its lease. */
  lemma LoneStepSame(env: Env, s: System, t: System, after: Row)
    requires SameData(s.row, t.row) && s.kv == t.kv && s.conns == t.conns
    ensures LoneStep(env, s, after) <==> LoneStep(env, t, after)
  {
  }

  /** The keys of a migrate page: each once, each read with its original value. */
  lemma ListedNames(env: Env, kv: map<Id, Envelope>, pos: nat, names: seq<Id>)
    requires ValidEnv(env) && kv == env.values && names == ListKv(env.keys, kv, pos, env.kvBatch).names
    ensures forall i, j :: 0 <= i < j < |names| ==> names[i] != names[j]
    ensures forall k :: k in names ==> k in Restrict(kv, names) && k in env.values && Restrict(kv, names)[k] == env.values[k]
  {
    NamesPresent(env.keys, kv, pos, env.kvBatch);
    NamesDistinct(env.keys, kv, pos, env.kvBatch);
  }

  ghost predicate AllGood(env: Env, names: seq<Id>) {
    forall k :: k in names ==> Good(env, k)
  }

  lemma GoodOneMore(env: Env, names: seq<Id>, name: Id)
    requires AllGood(env, names) && Good(env, name)
    ensures AllGood(env, names + [name])
  {
  }

  /** The row and the stores after a written page, in terms of those before it. */
  lemma PageWritten(env: Env, s: System, snap: Row, page: Page, conns: map<Id, Envelope>)
    requires ValidEnv(env) && RowOk(env, s.row, s.kv, s.conns) && SameData(s.row, snap) && s.row.phase == KvMigrate
    requires page == ListKv(env.keys, s.kv, From(snap.cursor), env.kvBatch)
    requires conns.Keys == s.conns.Keys + Elems(page.names)
    ensures RowOk(env, MigrateCommit(s.row, snap, page), s.kv, conns)
    ensures LoneStep(env, s, MigrateCommit(s.row, snap, page))
  {
    MigratedPrefix(env, conns, From(snap.cursor));
    if page.next.None? {
      assert forall k :: k in env.keys ==> k in conns;
    }
  }

  /** A cleanup page is empty exactly when nothing is left. */
  lemma PageEmptyExactly(env: Env, kv: map<Id, Envelope>)
    requires ValidEnv(env) && forall k :: k in kv ==> k in env.values
    ensures |ListKv(env.keys, kv, 0, env.cleanupBatch).names| <= env.cleanupBatch
    ensures |ListKv(env.keys, kv, 0, env.cleanupBatch).names| == 0 <==> kv == map[]
  {
    CleanupShrinks(env, kv);
    EmptyMap(kv);
  }

  /** The row after a cleaned page, in terms of that before it. */
  lemma RowCleaned(env: Env, s: System, snap: Row, row: Row)
    requires ValidEnv(env) && StoresOk(env, s.kv, s.conns)
    requires SameData(s.row, snap) && SameData(row, s.row) && s.row.phase == KvCleanup && s.row.cursor == None
    ensures LoneStep(env, s, CleanupCommit(row, snap, |ListKv(env.keys, s.kv, 0, env.cleanupBatch).names|))
  {
    PageEmptyExactly(env, s.kv);
  }

  lemma CleanedRowOk(env: Env, s: System, snap: Row, row: Row, names: seq<Id>)
    requires ValidEnv(env) && StoresOk(env, s.kv, s.conns) && RowOk(env, s.row, s.kv, s.conns)
    requires SameData(s.row, snap) && SameData(row, s.row) && s.row.phase == KvCleanup
    requires names == ListKv(env.keys, s.kv, 0, env.cleanupBatch).names
    ensures RowOk(env, CleanupCommit(row, snap, |names|), s.kv - Elems(names), s.conns)
    ensures names == [] <==> s.kv == map[]
  {
    PageEmptyExactly(env, s.kv);
  }

  /** Why a migrate step of a lone runner would fail: a key of its page that does not open or parse. */
  ghost predicate BadPage(env: Env, s: System) {
    s.row.phase == KvMigrate && !AllGood(env, ListKv(env.keys, s.kv, From(s.row.cursor), env.kvBatch).names)
  }

  lemma RowBounds(env: Env, row: Row, kv: map<Id, Envelope>, conns: map<Id, Envelope>)
    requires RowOk(env, row, kv, conns)
    ensures From(row.cursor) <= |env.keys| && row.processed <= |env.keys|
  {
  }

  /** A phase step of the row, with the keys it cleaned up gone from KV. */
  ghost predicate Progress(env: Env, s: System, t: System) {
    && ValidEnv(env) && StoresOk(env, s.kv, s.conns) && RowOk(env, s.row, s.kv, s.conns)
    && LoneStep(env, s, t.row) && RowOk(env, t.row, t.kv, t.conns)
    && if s.row.phase == KvCleanup
       then t.kv == s.kv - Elems(ListKv(env.keys, s.kv, 0, env.cleanupBatch).names) && (t.row.phase == Complete <==> s.kv == map[])
       else t.kv == s.kv
  }

  /** Taking the lease moves neither the data of the row nor what the next step would do. */
  lemma Relabelled(env: Env, s: System, row: Row)
    requires row == s.row.(status := row.status, owner := row.owner, expires := row.expires)
    ensures RowOk(env, s.row, s.kv, s.conns) ==> RowOk(env, row, s.kv, s.conns)
    ensures BadPage(env, s.(row := row)) <==> BadPage(env, s)
    ensures forall t: System :: Progress(env, s.(row := row), t) ==> Progress(env, s, t)
  {
  }

  /** The steps left, where the row is one that can occur. */
  ghost function Left(env: Env, s: System): nat {
    if ValidEnv(env) && From(s.row.cursor) <= |env.keys| && s.row.processed <= |env.keys| then StepsLeft(env, s.row, s.kv) else 0
  }

  lemma UsesOne(env: Env, s: System, t: System)
    requires Progress(env, s, t)
    ensures From(s.row.cursor) <= |env.keys| && s.row.processed <= |env.keys|
    ensures From(t.row.cursor) <= |env.keys| && t.row.processed <= |env.keys|
    ensures StepsLeft(env, s.row, s.kv) == StepsLeft(env, t.row, t.kv) + 1
  {
    RowBounds(env, s.row, s.kv, s.conns);
    RowBounds(env, t.row, t.kv, t.conns);
    match s.row.phase {
      case KvScan => ScanStepUsesOne(env, s, t.row);
      case KvMigrate => MigrateStepUsesOne(env, s, t.row);
      case Verify => VerifyStepUsesOne(env, s, t.row);
      case KvCleanup => CleanupStepUsesOne(env, s, t.row);
      case Complete =>
    }
  }

  lemma BadPageHasBadKey(env: Env, s: System)
    requires RowOk(env, s.row, s.kv, s.conns) && BadPage(env, s)
    ensures s.kv == env.values && !forall k :: k in env.keys ==> Good(env, k)
  {
    NamesPresent(env.keys, s.kv, From(s.row.cursor), env.kvBatch);
  }

  /** Every id in the table opens and parses, so a finished migration had only good keys. */
  lemma FinishedMeansGood(env: Env, conns: map<Id, Envelope>)
    requires AllIn(env, conns) && forall k :: k in conns ==> Faithful(env, k, conns[k])
    ensures forall k :: k in env.keys ==> Good(env, k)
  {
    forall k | k in env.keys ensures Good(env, k) {
      assert Faithful(env, k, conns[k]);
    }
  }

  /**
   runBootstrap: poll, stop on failure, step until complete. It always ends; it ends well
   exactly when every KV key opens and parses, and then after exactly StepsLeft steps.
   */
  method RunBootstrap(b: DatabaseBootstrap, owners: nat -> Owner, clock: nat -> int) returns (ok: bool, steps: nat)
    requires b.Idle() && b.row.status != Failed
    modifies b
    ensures b.Valid()
    ensures ok <==> b.row.status == Finished
    ensures ok <==> forall k :: k in b.env.keys ==> Good(b.env, k)
    ensures !ok ==> b.row.status == Failed && b.row.error == Some(KvConnectionInvalid) && b.kv == b.env.values
    ensures From(old(b.row).cursor) <= |b.env.keys| && old(b.row).processed <= |b.env.keys|
    ensures ok ==> steps == StepsLeft(b.env, old(b.row), old(b.kv))
  {
    RowBounds(b.env, b.row, b.kv, b.conns);
    steps := 0;
    while b.row.status != Finished
      invariant b.Idle() && b.row.status != Failed
      invariant From(b.row.cursor) <= |b.env.keys| && b.row.processed <= |b.env.keys|
      invariant steps + StepsLeft(b.env, b.row, b.kv) == StepsLeft(b.env, old(b.row), old(b.kv))
      decreases StepsLeft(b.env, b.row, b.kv)
    {
      ghost var before := b.State();
      b.Step(owners(steps), clock(steps));
      if b.row.status == Failed {
        BadPageHasBadKey(b.env, before);
        return false, steps + 1;
      }
      UsesOne(b.env, before, b.State());
      steps := steps + 1;
    }
    FinishedMeansGood(b.env, b.conns);
    ok := true;
  }

  lemma EmptyMap(m: map<Id, Envelope>)
    ensures |m| == 0 <==> m == map[]
  {
    assert |m| == |m.Keys|;
  }

  lemma AllRowsCounted(env: Env, conns: map<Id, Envelope>)
    requires ValidEnv(env) && AllIn(env, conns) && forall k :: k in conns ==> k in env.values
    ensures |conns| == |env.keys|
  {
    assert conns.Keys == env.values.Keys;
    FullSize(env, conns);
  }

  // ---- the inserts of a page ----

  /** Every name seen so far is in the table or queued, each queued once, with its own plaintext. */
  ghost predicate Queued(env: Env, conns: map<Id, Envelope>, names: seq<Id>, writes: seq<Write>) {
    && (forall w :: w in writes ==> w.id in names && w.id !in conns && Faithful(env, w.id, w.payload))
    && (forall k :: k in names && k !in conns ==> exists w :: w in writes && w.id == k)
    && (forall i, j :: 0 <= i < j < |writes| ==> writes[i].id != writes[j].id)
  }

  lemma QueuedOneMore(env: Env, conns: map<Id, Envelope>, names: seq<Id>, name: Id, writes: seq<Write>, after: seq<Write>)
    requires Queued(env, conns, names, writes) && name !in names
    requires if name in conns then after == writes
             else |after| == |writes| + 1 && after[..|writes|] == writes
                  && after[|writes|].id == name && Faithful(env, name, after[|writes|].payload)
    ensures Queued(env, conns, names + [name], after)
  {
    if name !in conns {
      assert after == writes + [after[|writes|]];
      assert forall w :: w in after <==> w in writes || w == after[|writes|];
    }
  }

  lemma CheckedOneMore(env: Env, conns: map<Id, Envelope>, names: seq<Id>, i: nat, writes: seq<Write>, after: seq<Write>)
    requires i < |names| && names[i] !in names[..i] && AllGood(env, names[..i]) && Good(env, names[i])
    requires Queued(env, conns, names[..i], writes)
    requires if names[i] in conns then after == writes
             else |after| == |writes| + 1 && after[..|writes|] == writes
                  && after[|writes|].id == names[i] && Faithful(env, names[i], after[|writes|].payload)
    ensures AllGood(env, names[..i + 1]) && Queued(env, conns, names[..i + 1], after)
  {
    QueuedOneMore(env, conns, names[..i], names[i], writes, after);
    GoodOneMore(env, names[..i], names[i]);
    assert names[..i + 1] == names[..i] + [names[i]];
  }

  lemma {:induction false} InsertedKeys(conns: map<Id, Envelope>, writes: seq<Write>)
    ensures forall k :: k in Inserted(conns, writes) <==> k in conns || exists w :: w in writes && w.id == k
    decreases |writes|
  {
    if writes != [] {
      var n := |writes| - 1;
      InsertedKeys(conns, writes[..n]);
      assert writes == writes[..n] + [writes[n]];
      assert forall w :: w in writes <==> w in writes[..n] || w == writes[n];
    }
  }

  lemma QueuedInserts(env: Env, conns: map<Id, Envelope>, names: seq<Id>, writes: seq<Write>)
    requires Queued(env, conns, names, writes)
    requires forall k :: k in conns ==> Faithful(env, k, conns[k])
    ensures !Conflict(conns, writes)
    ensures Inserted(conns, writes).Keys == conns.Keys + Elems(names)
    ensures forall k :: k in Inserted(conns, writes) ==> Faithful(env, k, Inserted(conns, writes)[k])
  {
    InsertedKeys(conns, writes);
    InsertedOk(env, conns, writes);
    forall i | 0 <= i < |writes| ensures writes[i].id !in conns {
      assert writes[i] in writes;
    }
  }
}
