/**
 A runner that nobody disturbs can always finish its phase: from every state the protocol can reach, its calls, one after
 the other and each of them enabled, lead to the commit of the phase, or to the recorded failure of a page with a bad key.
 */
module BootstrapRuns {
  import opened Common
  import opened BootstrapModel
  import opened KvPaging
  import opened BootstrapProtocol
  import opened BootstrapSafety
  import opened BootstrapTheorems
  import opened BootstrapAlone
  import opened BootstrapLease
  import R = BootstrapRunner

  ghost predicate By(o: Owner, run: seq<Action>) {
    forall a :: a in run ==> Caller(a) == Some(o)
  }

  ghost predicate Sealing(env: Env, encrypt: string -> Envelope) {
    forall p :: env.open(encrypt(p)) == Some(Opened(p, V3))
  }

  /** From s the runner o, working alone, has come to t: it holds the lease, the stores are as they were. */
  ghost predicate Going(env: Env, s: System, run: seq<Action>, t: System, o: Owner, work: Work, renewed: bool) {
    && Leads(env, s, run, t) && By(o, run) && Inv(env, t)
    && t.row.owner == Some(o) && SameData(t.row, s.row) && t.kv == s.kv && t.conns == s.conns
    && o in t.runners && t.runners[o].work == work && t.runners[o].renewed == renewed
  }

  lemma {:induction false} LeadsOneMore(env: Env, s: System, run: seq<Action>, t: System, a: Action)
    requires Leads(env, s, run, t) && Enabled(env, t, a)
    ensures Leads(env, s, run + [a], Apply(env, t, a))
    decreases |run|
  {
    if run == [] {
      assert ([] + [a])[1..] == [];
    } else {
      assert (run + [a])[1..] == run[1..] + [a];
      LeadsOneMore(env, Apply(env, s, run[0]), run[1..], t, a);
    }
  }

  /** One more call of the same runner that leaves the row and the stores alone. */
  lemma GoesOn(env: Env, s: System, run: seq<Action>, t: System, o: Owner, a: Action, work: Work, renewed: bool)
    requires ValidEnv(env) && o in t.runners && Going(env, s, run, t, o, t.runners[o].work, t.runners[o].renewed)
    requires Enabled(env, t, a) && Caller(a) == Some(o)
    requires var u := Apply(env, t, a);
             && SameData(u.row, t.row) && u.row.owner == t.row.owner && u.kv == t.kv && u.conns == t.conns
             && o in u.runners && u.runners[o].work == work && u.runners[o].renewed == renewed
    ensures Going(env, s, run + [a], Apply(env, t, a), o, work, renewed)
  {
    LeadsOneMore(env, s, run, t, a);
    StepKeeps(env, t, a);
  }

  lemma Beats(env: Env, s: System, run: seq<Action>, t: System, o: Owner, work: Work, now: int) returns (more: seq<Action>, u: System)
    requires ValidEnv(env) && Going(env, s, run, t, o, work, false) && Enabled(env, t, Renew(o, now))
    ensures Going(env, s, more, u, o, work, true)
  {
    RenewExactly(env, t, o, now);
    more, u := run + [Renew(o, now)], Apply(env, t, Renew(o, now));
    GoesOn(env, s, run, t, o, Renew(o, now), work, true);
  }

  lemma Starts(env: Env, s: System, o: Owner, now: int) returns (run: seq<Action>, t: System)
    requires ValidEnv(env) && Inv(env, s) && o !in s.runners && Free(s.row, now)
    ensures Going(env, s, run, t, o, Begin, true)
  {
    var a := Acquire(o, now);
    AcquireExactly(env, s, o, now);
    StepKeeps(env, s, a);
    LeadsOneMore(env, s, [], s, a);
    assert [] + [a] == [a];
    run, t := Beats(env, s, [a], Apply(env, s, a), o, Begin, now);
  }

  /** The run ends with the lease released and the phase step done, as one call of `step` does it. */
  ghost predicate Finishes(env: Env, s: System, run: seq<Action>, t: System, o: Owner) {
    && Leads(env, s, run, t) && By(o, run) && R.Progress(env, s, t)
    && t.row.owner == None && t.row.expires == None && (t.row.status == Pending || t.row.status == Finished)
  }

  lemma CommitReleases(env: Env, t: System, o: Owner)
    requires Inv(env, t) && t.row.owner == Some(o) && Enabled(env, t, Commit(o))
    requires t.runners[o].work.Checking? ==> !Conflict(t.conns, t.runners[o].work.writes)
    ensures var u := Apply(env, t, Commit(o));
            && u.row.owner == None && u.row.expires == None && (u.row.status == Pending || u.row.status == Finished)
            && u.kv == t.kv
  {
    assert RunnerOk(env, t.row, t.kv, t.conns, o, t.runners[o]);
  }

  lemma Commits(env: Env, s: System, run: seq<Action>, t: System, o: Owner, work: Work)
    returns (more: seq<Action>, u: System)
    requires ValidEnv(env) && Inv(env, s) && Going(env, s, run, t, o, work, true) && Enabled(env, t, Commit(o))
    requires !work.Cleaning? && (work.Checking? ==> !Conflict(t.conns, work.writes))
    ensures Finishes(env, s, more, u, o)
  {
    var a := Commit(o);
    more, u := run + [a], Apply(env, t, a);
    LeadsOneMore(env, s, run, t, a);
    StepKeeps(env, t, a);
    CommitReleases(env, t, o);
    if work.Listed? || work.Checking? { KvCommitIsPhaseStep(env, t, o); } else { VerifyCommitIsPhaseStep(env, t, o); }
    assert RunnerOk(env, t.row, t.kv, t.conns, o, t.runners[o]);
    assert s.row.phase != KvCleanup;
    OtherListed(env, t, ListedBy(t.runners[o]), |ListKv(env.keys, t.kv, 0, env.cleanupBatch).names|, u.row);
    R.LoneStepSame(env, s, t, u.row);
  }

  lemma OtherListed(env: Env, s: System, m: nat, n: nat, after: Row)
    requires s.row.phase != KvCleanup && PhaseStep(env, s, m, after)
    ensures PhaseStep(env, s, n, after)
  {
  }

  // ---- the KV phases ----

  lemma PageListed(env: Env, s: System, run: seq<Action>, t: System, o: Owner) returns (more: seq<Action>, u: System)
    requires ValidEnv(env) && Going(env, s, run, t, o, Begin, true)
    requires s.row.phase == KvScan || s.row.phase == KvMigrate
    ensures Going(env, s, more, u, o, Listed(ListKv(env.keys, s.kv, From(s.row.cursor), env.kvBatch)), false)
  {
    var a := ListPage(o);
    more, u := run + [a], Apply(env, t, a);
    GoesOn(env, s, run, t, o, a, Listed(ListKv(env.keys, s.kv, From(s.row.cursor), env.kvBatch)), false);
  }

  lemma ScanRuns(env: Env, s: System, o: Owner, now: int) returns (run: seq<Action>, t: System)
    requires ValidEnv(env) && Inv(env, s) && o !in s.runners && Free(s.row, now) && s.row.phase == KvScan
    ensures Finishes(env, s, run, t, o)
  {
    var page := ListKv(env.keys, s.kv, From(s.row.cursor), env.kvBatch);
    run, t := Starts(env, s, o, now);
    run, t := PageListed(env, s, run, t, o);
    run, t := Beats(env, s, run, t, o, Listed(page), now);
    run, t := Commits(env, s, run, t, o, Listed(page));
  }

  lemma ValuesRead(env: Env, s: System, run: seq<Action>, t: System, o: Owner, page: Page) returns (more: seq<Action>, u: System)
    requires ValidEnv(env) && Going(env, s, run, t, o, Listed(page), false) && s.row.phase == KvMigrate
    ensures Going(env, s, more, u, o, Checking(page, Restrict(s.kv, page.names), 0, []), false)
  {
    var a := GetValues(o);
    more, u := run + [a], Apply(env, t, a);
    GoesOn(env, s, run, t, o, a, Checking(page, Restrict(s.kv, page.names), 0, []), false);
  }

  /** What the check of one key decides, for a key with its original value: exactly the keys that open and parse pass. */
  lemma VerdictExactly(env: Env, kv: map<Id, Envelope>, conns: map<Id, Envelope>, values: map<Id, Envelope>, name: Id)
    requires StoresOk(env, kv, conns) && name in values && name in env.values && values[name] == env.values[name]
    ensures KeyVerdict(env, values, conns, name) == if Good(env, name) then Ok(name !in conns) else Err(KvConnectionInvalid)
  {
    if name in conns { assert Faithful(env, name, conns[name]); }
  }

  function SealedFor(env: Env, encrypt: string -> Envelope, raw: Envelope): Envelope {
    match env.open(raw)
    case None => raw
    case Some(found) => if found.version == V3 then raw else encrypt(found.plaintext)
  }

  /** One key of the page: checked, and queued exactly if the table does not have it; or the page fails. */
  lemma KeyChecked(env: Env, encrypt: string -> Envelope, s: System, run: seq<Action>, t: System, o: Owner, page: Page,
                   values: map<Id, Envelope>, i: nat, writes: seq<Write>)
    returns (more: seq<Action>, u: System, after: seq<Write>)
    requires ValidEnv(env) && Sealing(env, encrypt) && i < |page.names|
    requires Going(env, s, run, t, o, Checking(page, values, i, writes), true)
    requires var name := page.names[i]; name in values && name in env.values && values[name] == env.values[name]
    ensures Going(env, s, more, u, o,
                  if Good(env, page.names[i]) then Checking(page, values, i + 1, after) else Failing(KvConnectionInvalid), false)
    ensures after == if page.names[i] in s.conns then writes
                     else writes + [Write(page.names[i], SealedFor(env, encrypt, values[page.names[i]]))]
  {
    var name := page.names[i];
    var a := CheckKey(o, SealedFor(env, encrypt, values[name]));
    VerdictExactly(env, t.kv, t.conns, values, name);
    after := if name in s.conns then writes else writes + [Write(name, a.sealed)];
    more, u := run + [a], Apply(env, t, a);
    CheckedWork(env, t, o, a.sealed, page, values, i, writes, after);
    GoesOn(env, s, run, t, o, a, if Good(env, name) then Checking(page, values, i + 1, after) else Failing(KvConnectionInvalid), false);
  }

  lemma CheckedWork(env: Env, t: System, o: Owner, sealed: Envelope, page: Page, values: map<Id, Envelope>, i: nat,
                    writes: seq<Write>, after: seq<Write>)
    requires Enabled(env, t, CheckKey(o, sealed)) && t.runners[o].work == Checking(page, values, i, writes)
    requires var name := page.names[i];
             && KeyVerdict(env, values, t.conns, name) == (if Good(env, name) then Ok(name !in t.conns) else Err(KvConnectionInvalid))
             && after == if name in t.conns then writes else writes + [Write(name, sealed)]
    ensures var u := Apply(env, t, CheckKey(o, sealed));
            && u.row == t.row && u.kv == t.kv && u.conns == t.conns && o in u.runners && !u.runners[o].renewed
            && u.runners[o].work == if Good(env, page.names[i]) then Checking(page, values, i + 1, after)
                                    else Failing(KvConnectionInvalid)
  {
  }

  /** The keys of a page from the i-th on. */
  lemma {:induction false} KeysChecked(env: Env, encrypt: string -> Envelope, s: System, run: seq<Action>, t: System, o: Owner,
                                       page: Page, values: map<Id, Envelope>, i: nat, writes: seq<Write>, now: int)
    returns (more: seq<Action>, u: System, after: seq<Write>)
    requires ValidEnv(env) && Sealing(env, encrypt) && i <= |page.names| && s.row.phase == KvMigrate
    requires Going(env, s, run, t, o, Checking(page, values, i, writes), false)
    requires forall j, k :: 0 <= j < k < |page.names| ==> page.names[j] != page.names[k]
    requires forall k :: k in page.names ==> k in values && k in env.values && values[k] == env.values[k]
    requires R.AllGood(env, page.names[..i]) && R.Queued(env, s.conns, page.names[..i], writes)
    ensures R.AllGood(env, page.names) ==>
              && Going(env, s, more, u, o, Checking(page, values, |page.names|, after), true)
              && R.Queued(env, s.conns, page.names, after)
    ensures !R.AllGood(env, page.names) ==> Going(env, s, more, u, o, Failing(KvConnectionInvalid), false)
    decreases |page.names| - i
  {
    more, u := Beats(env, s, run, t, o, Checking(page, values, i, writes), now);
    after := writes;
    if i < |page.names| {
      var name := page.names[i];
      assert name in page.names && name !in page.names[..i];
      more, u, after := KeyChecked(env, encrypt, s, more, u, o, page, values, i, writes);
      if Good(env, name) {
        QueuedNext(env, encrypt, s, page.names, i, values[name], writes, after);
        more, u, after := KeysChecked(env, encrypt, s, more, u, o, page, values, i + 1, after, now);
      }
    } else {
      assert page.names[..i] == page.names;
    }
  }

  lemma QueuedNext(env: Env, encrypt: string -> Envelope, s: System, names: seq<Id>, i: nat, raw: Envelope,
                   writes: seq<Write>, after: seq<Write>)
    requires Sealing(env, encrypt) && i < |names| && names[i] !in names[..i] && Good(env, names[i]) && raw == env.values[names[i]]
    requires R.AllGood(env, names[..i]) && R.Queued(env, s.conns, names[..i], writes)
    requires after == if names[i] in s.conns then writes else writes + [Write(names[i], SealedFor(env, encrypt, raw))]
    ensures R.AllGood(env, names[..i + 1]) && R.Queued(env, s.conns, names[..i + 1], after)
  {
    R.CheckedOneMore(env, s.conns, names, i, writes, after);
  }

  /** The run fails: the failure is recorded, and the data of the row and the stores are as they were. */
  ghost predicate Fails(env: Env, s: System, run: seq<Action>, t: System, o: Owner) {
    && Leads(env, s, run, t) && By(o, run) && SameData(t.row, s.row) && t.kv == s.kv && t.conns == s.conns
    && t.row.status == Failed && t.row.error == Some(KvConnectionInvalid) && t.row.owner == None && t.row.expires == None
  }

  lemma FailureRecorded(env: Env, s: System, run: seq<Action>, t: System, o: Owner) returns (more: seq<Action>, u: System)
    requires Going(env, s, run, t, o, Failing(KvConnectionInvalid), false)
    ensures Fails(env, s, more, u, o)
  {
    var a := RecordFailure(o);
    LeadsOneMore(env, s, run, t, a);
    more, u := run + [a], Apply(env, t, a);
  }

  lemma MigrateStarts(env: Env, s: System, o: Owner, now: int, page: Page) returns (run: seq<Action>, t: System)
    requires ValidEnv(env) && Inv(env, s) && o !in s.runners && Free(s.row, now) && s.row.phase == KvMigrate
    requires page == ListKv(env.keys, s.kv, From(s.row.cursor), env.kvBatch)
    ensures Going(env, s, run, t, o, Checking(page, Restrict(s.kv, page.names), 0, []), false)
  {
    run, t := Starts(env, s, o, now);
    run, t := PageListed(env, s, run, t, o);
    run, t := ValuesRead(env, s, run, t, o, page);
  }

  lemma PageCommits(env: Env, s: System, run: seq<Action>, t: System, o: Owner, work: Work)
    returns (more: seq<Action>, u: System)
    requires ValidEnv(env) && Inv(env, s) && Going(env, s, run, t, o, work, true) && s.row.phase == KvMigrate
    requires work.Checking? && work.index == |work.page.names| && R.Queued(env, s.conns, work.page.names, work.writes)
    ensures Finishes(env, s, more, u, o)
  {
    R.QueuedInserts(env, s.conns, work.page.names, work.writes);
    more, u := Commits(env, s, run, t, o, work);
  }

  lemma MigrateRuns(env: Env, encrypt: string -> Envelope, s: System, o: Owner, now: int) returns (run: seq<Action>, t: System)
    requires ValidEnv(env) && Sealing(env, encrypt) && Inv(env, s)
    requires o !in s.runners && Free(s.row, now) && s.row.phase == KvMigrate
    ensures if R.BadPage(env, s) then Fails(env, s, run, t, o) else Finishes(env, s, run, t, o)
  {
    var page := ListKv(env.keys, s.kv, From(s.row.cursor), env.kvBatch);
    var values, writes := Restrict(s.kv, page.names), [];
    R.ListedNames(env, s.kv, From(s.row.cursor), page.names);
    run, t := MigrateStarts(env, s, o, now, page);
    assert page.names[..0] == [];
    run, t, writes := KeysChecked(env, encrypt, s, run, t, o, page, values, 0, [], now);
    if R.BadPage(env, s) {
      run, t := FailureRecorded(env, s, run, t, o);
    } else {
      run, t := PageCommits(env, s, run, t, o, Checking(page, values, |page.names|, writes));
    }
  }

  // ---- verifying ----

  lemma RowChecked(env: Env, s: System, run: seq<Action>, t: System, o: Owner, rows: seq<Stored>, i: nat, now: int)
    returns (more: seq<Action>, u: System)
    requires ValidEnv(env) && Going(env, s, run, t, o, Verifying(rows, i), false) && i < |rows|
    requires Faithful(env, rows[i].id, rows[i].payload)
    ensures Going(env, s, more, u, o, Verifying(rows, i + 1), false)
  {
    more, u := Beats(env, s, run, t, o, Verifying(rows, i), now);
    GoesOn(env, s, more, u, o, CheckRow(o), Verifying(rows, i + 1), false);
    more, u := more + [CheckRow(o)], Apply(env, u, CheckRow(o));
  }

  lemma {:induction false} RowsChecked(env: Env, s: System, run: seq<Action>, t: System, o: Owner, rows: seq<Stored>, i: nat, now: int)
    returns (more: seq<Action>, u: System)
    requires ValidEnv(env) && Going(env, s, run, t, o, Verifying(rows, i), false) && i <= |rows|
    requires forall r :: r in rows ==> Faithful(env, r.id, r.payload)
    ensures Going(env, s, more, u, o, Verifying(rows, |rows|), true)
    decreases |rows| - i
  {
    if i < |rows| {
      assert rows[i] in rows;
      more, u := RowChecked(env, s, run, t, o, rows, i, now);
      more, u := RowsChecked(env, s, more, u, o, rows, i + 1, now);
    } else {
      more, u := Beats(env, s, run, t, o, Verifying(rows, i), now);
    }
  }

  lemma RowsSelected(env: Env, s: System, run: seq<Action>, t: System, o: Owner) returns (more: seq<Action>, u: System)
    requires ValidEnv(env) && Going(env, s, run, t, o, Begin, true) && s.row.phase == Verify
    ensures Going(env, s, more, u, o, Verifying(Rows(env, s.conns, s.row.processed), 0), false)
  {
    var a := SelectRows(o);
    more, u := run + [a], Apply(env, t, a);
    GoesOn(env, s, run, t, o, a, Verifying(Rows(env, s.conns, s.row.processed), 0), false);
  }

  lemma RowsCounted(env: Env, s: System, run: seq<Action>, t: System, o: Owner, rows: seq<Stored>, now: int)
    returns (more: seq<Action>, u: System)
    requires ValidEnv(env) && Going(env, s, run, t, o, Verifying(rows, |rows|), true) && s.row.phase == Verify
    requires VerifyDone(env, s.row, |rows|) && s.row.processed + |rows| == s.row.total == |s.conns|
    ensures Going(env, s, more, u, o, Counted(rows), true)
  {
    var a := CountRows(o);
    more, u := run + [a], Apply(env, t, a);
    GoesOn(env, s, run, t, o, a, Counted(rows), false);
    more, u := Beats(env, s, more, u, o, Counted(rows), now);
  }

  lemma RowsFaithful(env: Env, kv: map<Id, Envelope>, conns: map<Id, Envelope>, offset: nat)
    requires ValidEnv(env) && StoresOk(env, kv, conns) && AllIn(env, conns) && offset <= |env.keys|
    ensures forall r :: r in Rows(env, conns, offset) ==> Faithful(env, r.id, r.payload)
    ensures |Rows(env, conns, offset)| == Min(env.verifyBatch, |env.keys| - offset)
  {
    FullSelect(env, conns, offset, env.verifyBatch);
    var ids := Select(env, conns, offset, env.verifyBatch);
    forall r | r in Rows(env, conns, offset) ensures Faithful(env, r.id, r.payload) {
      var i :| 0 <= i < |ids| && Rows(env, conns, offset)[i] == r;
      assert ids[i] in env.keys;
    }
  }

  lemma VerifyStarts(env: Env, s: System, o: Owner, now: int, rows: seq<Stored>) returns (run: seq<Action>, t: System)
    requires ValidEnv(env) && Inv(env, s) && o !in s.runners && Free(s.row, now) && s.row.phase == Verify
    requires rows == Rows(env, s.conns, s.row.processed) && forall r :: r in rows ==> Faithful(env, r.id, r.payload)
    ensures Going(env, s, run, t, o, Verifying(rows, |rows|), true)
  {
    run, t := Starts(env, s, o, now);
    run, t := RowsSelected(env, s, run, t, o);
    run, t := RowsChecked(env, s, run, t, o, rows, 0, now);
  }

  lemma VerifyRuns(env: Env, s: System, o: Owner, now: int) returns (run: seq<Action>, t: System)
    requires ValidEnv(env) && Inv(env, s) && o !in s.runners && Free(s.row, now) && s.row.phase == Verify
    ensures Finishes(env, s, run, t, o)
  {
    var rows := Rows(env, s.conns, s.row.processed);
    RowsFaithful(env, s.kv, s.conns, s.row.processed);
    run, t := VerifyStarts(env, s, o, now, rows);
    if VerifyDone(env, s.row, |rows|) {
      R.AllRowsCounted(env, s.conns);
      run, t := RowsCounted(env, s, run, t, o, rows, now);
      run, t := Commits(env, s, run, t, o, Counted(rows));
    } else {
      run, t := Commits(env, s, run, t, o, Verifying(rows, |rows|));
    }
  }

  // ---- cleaning up ----

  /** The same while the keys of a cleanup page are being deleted, of which those in `left` remain. */
  ghost predicate Deleting(env: Env, s: System, run: seq<Action>, t: System, o: Owner, names: seq<Id>, left: set<Id>) {
    && Leads(env, s, run, t) && By(o, run) && Inv(env, t) && left <= Elems(names)
    && t.row.owner == Some(o) && SameData(t.row, s.row) && t.conns == s.conns && t.kv == s.kv - (Elems(names) - left)
    && o in t.runners && t.runners[o].work == Cleaning(names, left)
  }

  lemma CleanupStarts(env: Env, s: System, o: Owner, now: int, names: seq<Id>) returns (run: seq<Action>, t: System)
    requires ValidEnv(env) && Inv(env, s) && o !in s.runners && Free(s.row, now) && s.row.phase == KvCleanup
    requires names == ListKv(env.keys, s.kv, 0, env.cleanupBatch).names
    ensures Deleting(env, s, run, t, o, names, Elems(names)) && !t.runners[o].renewed
  {
    run, t := Starts(env, s, o, now);
    var a := ListPage(o);
    GoesOn(env, s, run, t, o, a, Cleaning(names, Elems(names)), false);
    run, t := run + [a], Apply(env, t, a);
    assert s.kv - (Elems(names) - Elems(names)) == s.kv;
  }

  lemma KeyDeleted(env: Env, s: System, run: seq<Action>, t: System, o: Owner, names: seq<Id>, left: set<Id>, k: Id)
    requires ValidEnv(env) && Deleting(env, s, run, t, o, names, left) && k in left
    ensures Enabled(env, t, DeleteKey(o, k))
    ensures Deleting(env, s, run + [DeleteKey(o, k)], Apply(env, t, DeleteKey(o, k)), o, names, left - {k})
    ensures Apply(env, t, DeleteKey(o, k)).runners[o].renewed == t.runners[o].renewed
  {
    LeadsOneMore(env, s, run, t, DeleteKey(o, k));
    StepKeeps(env, t, DeleteKey(o, k));
    assert s.kv - (Elems(names) - left) - {k} == s.kv - (Elems(names) - (left - {k}));
  }

  lemma {:induction false} KeysDeleted(env: Env, s: System, run: seq<Action>, t: System, o: Owner, names: seq<Id>, left: set<Id>)
    returns (more: seq<Action>, u: System)
    requires ValidEnv(env) && Deleting(env, s, run, t, o, names, left) && !t.runners[o].renewed
    ensures Deleting(env, s, more, u, o, names, {}) && !u.runners[o].renewed
    decreases |left|
  {
    more, u := run, t;
    if left != {} {
      var k :| k in left;
      KeyDeleted(env, s, run, t, o, names, left, k);
      more, u := KeysDeleted(env, s, run + [DeleteKey(o, k)], Apply(env, t, DeleteKey(o, k)), o, names, left - {k});
    }
  }

  lemma LastBeat(env: Env, s: System, run: seq<Action>, t: System, o: Owner, names: seq<Id>, now: int)
    returns (more: seq<Action>, u: System)
    requires ValidEnv(env) && Deleting(env, s, run, t, o, names, {}) && !t.runners[o].renewed
    ensures Deleting(env, s, more, u, o, names, {}) && u.runners[o].renewed
  {
    var a := Renew(o, now);
    RenewExactly(env, t, o, now);
    StepKeeps(env, t, a);
    LeadsOneMore(env, s, run, t, a);
    more, u := run + [a], Apply(env, t, a);
  }

  lemma CleanupRuns(env: Env, s: System, o: Owner, now: int) returns (run: seq<Action>, t: System)
    requires ValidEnv(env) && Inv(env, s) && o !in s.runners && Free(s.row, now) && s.row.phase == KvCleanup
    ensures Finishes(env, s, run, t, o)
  {
    var names := ListKv(env.keys, s.kv, 0, env.cleanupBatch).names;
    run, t := CleanupStarts(env, s, o, now, names);
    run, t := KeysDeleted(env, s, run, t, o, names, Elems(names));
    run, t := LastBeat(env, s, run, t, o, names, now);
    run, t := CleanupCommits(env, s, run, t, o, names);
  }

  lemma CleanedIsLoneStep(env: Env, s: System, t: System, after: Row, names: seq<Id>)
    requires ValidEnv(env) && StoresOk(env, s.kv, s.conns) && s.row.phase == KvCleanup && SameData(t.row, s.row)
    requires names == ListKv(env.keys, s.kv, 0, env.cleanupBatch).names && t.kv == s.kv - Elems(names)
    requires PhaseStep(env, t, |names|, after)
    ensures LoneStep(env, s, after) && (after.phase == Complete <==> s.kv == map[])
  {
    R.PageEmptyExactly(env, s.kv);
  }

  lemma CleanupCommits(env: Env, s: System, run: seq<Action>, t: System, o: Owner, names: seq<Id>)
    returns (more: seq<Action>, u: System)
    requires ValidEnv(env) && Inv(env, s) && Deleting(env, s, run, t, o, names, {}) && t.runners[o].renewed
    requires s.row.phase == KvCleanup && names == ListKv(env.keys, s.kv, 0, env.cleanupBatch).names
    ensures Finishes(env, s, more, u, o)
  {
    var a := Commit(o);
    more, u := run + [a], Apply(env, t, a);
    LeadsOneMore(env, s, run, t, a);
    StepKeeps(env, t, a);
    CommitReleases(env, t, o);
    CleanupCommitIsPhaseStep(env, t, o);
    assert Elems(names) - {} == Elems(names);
    CleanedIsLoneStep(env, s, t, u.row, names);
  }

  // ---- every phase ----

  /**
   Whenever the row is free, a new runner can do its whole step: its calls are enabled one after the other and lead to
   what the step of the object leaves, or to the recorded failure exactly when a key of its page does not open or parse.
   */
  lemma StepIsARun(env: Env, encrypt: string -> Envelope, s: System, o: Owner, now: int) returns (run: seq<Action>, t: System)
    requires ValidEnv(env) && Sealing(env, encrypt) && Inv(env, s) && o !in s.runners && Free(s.row, now)
    ensures if R.BadPage(env, s) then Fails(env, s, run, t, o) else Finishes(env, s, run, t, o)
  {
    match s.row.phase
    case KvScan => run, t := ScanRuns(env, s, o, now);
    case KvMigrate => run, t := MigrateRuns(env, encrypt, s, o, now);
    case Verify => run, t := VerifyRuns(env, s, o, now);
    case KvCleanup => run, t := CleanupRuns(env, s, o, now);
  }

  lemma {:induction false} RunnersGrow(env: Env, s: System, run: seq<Action>, t: System, o: Owner)
    requires Leads(env, s, run, t) && By(o, run)
    ensures t.runners.Keys <= s.runners.Keys + {o}
    decreases |run|
  {
    if run != [] {
      assert run[0] in run;
      OneRunnerGrows(env, s, run[0], o);
      RunnersGrow(env, Apply(env, s, run[0]), run[1..], t, o);
    }
  }

  lemma OneRunnerGrows(env: Env, s: System, a: Action, o: Owner)
    requires Enabled(env, s, a) && Caller(a) == Some(o)
    ensures Apply(env, s, a).runners.Keys <= s.runners.Keys + {o}
  {
    match a {
      case CheckKey(_, sealed) => assert ApplyCheckKey(env, s, o, sealed).runners.Keys <= s.runners.Keys + {o};
      case Commit(_) => assert ApplyCommit(env, s, o).runners.Keys <= s.runners.Keys + {o};
      case _ =>
    }
  }

  lemma {:induction false} LeadsOn(env: Env, s: System, a: seq<Action>, t: System, b: seq<Action>, u: System)
    requires Leads(env, s, a, t) && Leads(env, t, b, u)
    ensures Leads(env, s, a + b, u)
    decreases |a|
  {
    if a == [] {
      assert a + b == b;
    } else {
      assert (a + b)[1..] == a[1..] + b;
      LeadsOn(env, Apply(env, s, a[0]), a[1..], t, b, u);
    }
  }

  /** Owners that have not appeared yet, all different. */
  ghost predicate NewOwners(s: System, owners: nat -> Owner, from: nat) {
    && (forall i: nat :: from <= i ==> owners(i) !in s.runners)
    && (forall i: nat, j: nat :: from <= i < j ==> owners(i) != owners(j))
  }

  /**
   The migration never gets stuck: from any reachable free row, if every key opens and parses, new runners can always
   bring it to its end, one step each, however earlier runners have stalled, failed or lost their lease.
   */
  lemma {:induction false} CanComplete(env: Env, encrypt: string -> Envelope, s: System, owners: nat -> Owner, from: nat, now: int)
    returns (run: seq<Action>, t: System)
    requires ValidEnv(env) && Sealing(env, encrypt) && Inv(env, s) && Free(s.row, now) && NewOwners(s, owners, from)
    requires forall k :: k in env.keys ==> Good(env, k)
    ensures Leads(env, s, run, t) && t.row.status == Finished
    decreases R.Left(env, s)
  {
    var o := owners(from);
    if R.BadPage(env, s) { R.BadPageHasBadKey(env, s); }
    run, t := StepIsARun(env, encrypt, s, o, now);
    R.UsesOne(env, s, t);
    if t.row.status != Finished {
      LeadsKeeps(env, s, run, t);
      RunnersGrow(env, s, run, t, o);
      var more;
      var u := t;
      more, u := CanComplete(env, encrypt, t, owners, from + 1, now);
      LeadsOn(env, s, run, t, more, u);
      run, t := run + more, u;
    }
  }

  /** So from every state a run from the start can reach in which the row has not failed, as soon as its lease is out. */
  lemma CanCompleteFromAnyRun(env: Env, encrypt: string -> Envelope, before: seq<Action>, s: System, owners: nat -> Owner, now: int)
    returns (run: seq<Action>, t: System)
    requires ValidEnv(env) && Sealing(env, encrypt) && Leads(env, Initial(env), before, s)
    requires Free(s.row, now) && NewOwners(s, owners, 0) && forall k :: k in env.keys ==> Good(env, k)
    ensures Leads(env, Initial(env), before + run, t) && t.row.status == Finished
  {
    ReachableOk(env, before, s);
    run, t := CanComplete(env, encrypt, s, owners, 0, now);
    LeadsOn(env, Initial(env), before, s, run, t);
  }
}
