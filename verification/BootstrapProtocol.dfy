/**
 Any number of runners against one bootstrap row. An action is one database or KV call of
 one runner (or the retry button); between two actions a runner may stall for any time,
 lose its lease to another runner, resume stale, or never come back.
 */
module BootstrapProtocol {
  import opened Common
  import opened BootstrapModel
  import opened KvPaging

  datatype Write = Write(id: Id, payload: Envelope)

  datatype Stored = Stored(id: Id, payload: Envelope)

  /** How far a runner is inside its phase; `Failing` is the catch block, `Done` the end. */
  datatype Work =
    | Begin
    | Listed(page: Page)
    | Checking(page: Page, values: map<Id, Envelope>, index: nat, writes: seq<Write>)
    | Verifying(rows: seq<Stored>, index: nat)
    | Counted(rows: seq<Stored>)
    | Cleaning(names: seq<Id>, left: set<Id>)
    | Failing(code: ErrorCode)
    | Done

  /** `snap` is the row returned when the lease was taken; `renewed` says the heartbeat before the next call has passed. */
  datatype Runner = Runner(snap: Row, renewed: bool, work: Work)

  datatype System = System(
    row: Row, kv: map<Id, Envelope>, conns: map<Id, Envelope>, runners: map<Owner, Runner>)

  datatype Action =
    | Acquire(o: Owner, now: int)
    | Retry
    | Renew(o: Owner, now: int)
    | ListPage(o: Owner)
    | GetValues(o: Owner)
    | CheckKey(o: Owner, sealed: Envelope)
    | SelectRows(o: Owner)
    | CheckRow(o: Owner)
    | CountRows(o: Owner)
    | DeleteKey(o: Owner, k: Id)
    | Commit(o: Owner)
    | Throw(o: Owner)
    | RecordFailure(o: Owner)

  function InitialRow(): Row {
    Row(Pending, KvScan, 0, 0, None, None, None, None)
  }

  function Initial(env: Env): System {
    System(InitialRow(), env.values, map[], map[])
  }

  // ---- the calls ----

  /** The guarded update that takes the lease: the row it returns, or nothing. */
  function Acquired(row: Row, o: Owner, now: int): Option<Row> {
    if row.status != Finished && row.status != Failed && (row.expires.None? || row.expires.value < now)
    then Some(row.(status := Running, owner := Some(o), expires := Some(now + BOOTSTRAP_LEASE_MS)))
    else None
  }

  function Retried(row: Row): Row {
    if row.status == Failed then row.(status := Pending, error := None, owner := None, expires := None) else row
  }

  function FailedRow(row: Row, o: Owner, code: ErrorCode): Row {
    if row.owner == Some(o) then row.(status := Failed, error := Some(code), owner := None, expires := None) else row
  }

  function Holds(row: Row, o: Owner): bool {
    row.owner == Some(o) && row.status == Running
  }

  /** What the checks on one KV key of a page decide. */
  function KeyVerdict(env: Env, values: map<Id, Envelope>, conns: map<Id, Envelope>, name: Id): Result<bool, ErrorCode> {
    if name !in values then Ok(false)
    else
      match env.open(values[name])
      case None => Err(KvConnectionInvalid)
      case Some(found) =>
        if !env.parses(found.plaintext, name) then Err(KvConnectionInvalid)
        else if name !in conns then Ok(true)
        else
          match env.open(conns[name])
          case None => Err(D1ConnectionConflict)
          case Some(current) => if env.parses(current.plaintext, name) then Ok(false) else Err(KvConnectionInvalid)
  }

  /** A v3 envelope is kept; an older one is sealed again. */
  predicate PayloadOk(env: Env, raw: Envelope, payload: Envelope) {
    env.open(raw).Some? &&
    if env.open(raw).value.version == V3 then payload == raw
    else env.open(payload) == Some(Opened(env.open(raw).value.plaintext, V3))
  }

  function Restrict(kv: map<Id, Envelope>, names: seq<Id>): map<Id, Envelope> {
    map k | k in kv && k in names :: kv[k]
  }

  function Conflict(conns: map<Id, Envelope>, writes: seq<Write>): bool {
    || (exists i | 0 <= i < |writes| :: writes[i].id in conns)
    || (exists i, j | 0 <= i < j < |writes| :: writes[i].id == writes[j].id)
  }

  function Inserted(conns: map<Id, Envelope>, writes: seq<Write>): map<Id, Envelope> {
    if writes == [] then conns
    else
      var last := writes[|writes| - 1];
      Inserted(conns, writes[..|writes| - 1])[last.id := last.payload]
  }

  function Rows(env: Env, conns: map<Id, Envelope>, offset: nat): seq<Stored> {
    var ids := Select(env, conns, offset, env.verifyBatch);
    seq(|ids|, i requires 0 <= i < |ids| => Stored(ids[i], if ids[i] in conns then conns[ids[i]] else ""))
  }

  predicate VerifyDone(env: Env, snap: Row, count: nat) {
    count < env.verifyBatch || snap.processed + count >= snap.total
  }

  // ---- the phase commits, as functions of the row ----

  function Released(row: Row, phase: Phase, processed: nat, total: nat, cursor: Option<nat>): Row {
    row.(status := Pending, phase := phase, processed := processed, total := total, cursor := cursor,
         owner := None, expires := None)
  }

  function ScanCommit(row: Row, snap: Row, page: Page): Row {
    Released(row, if page.next.None? then KvMigrate else KvScan, 0, snap.total + |page.names|, page.next)
  }

  function MigrateCommit(row: Row, snap: Row, page: Page): Row {
    if page.next.None? then Released(row, Verify, 0, row.total, None)
    else Released(row, KvMigrate, if snap.total <= snap.processed + |page.names| then snap.total else snap.processed + |page.names|,
                  row.total, page.next)
  }

  function VerifyCommit(env: Env, row: Row, snap: Row, count: nat): Row {
    if VerifyDone(env, snap, count) then Released(row, KvCleanup, 0, row.total, None)
    else Released(row, Verify, snap.processed + count, row.total, None)
  }

  function CleanupCommit(row: Row, snap: Row, count: nat): Row {
    if count == 0 then
      Released(row, Complete, snap.total, row.total, None).(status := Finished, error := None)
    else
      Released(row, KvCleanup, if snap.total <= snap.processed + count then snap.total else snap.processed + count,
               row.total, None).(error := None)
  }

  // ---- steps ----

  predicate Working(r: Runner) {
    !r.work.Failing? && !r.work.Done?
  }

  /** The runner `o` is at a place where the code makes this call next. */
  predicate Enabled(env: Env, s: System, a: Action) {
    match a
    case Acquire(o, _) => o !in s.runners
    case Retry => true
    case Renew(o, _) =>
      && o in s.runners && Working(s.runners[o]) && !s.runners[o].renewed
      && (s.runners[o].work.Cleaning? ==> s.runners[o].work.left == {})
      && (s.runners[o].work.Listed? ==> s.runners[o].snap.phase == KvScan)
    case ListPage(o) =>
      && o in s.runners && s.runners[o].work == Begin && s.runners[o].renewed
      && (s.runners[o].snap.phase == KvScan || s.runners[o].snap.phase == KvMigrate || s.runners[o].snap.phase == KvCleanup)
    case GetValues(o) =>
      o in s.runners && s.runners[o].work.Listed? && s.runners[o].snap.phase == KvMigrate
    case CheckKey(o, sealed) =>
      && o in s.runners && s.runners[o].work.Checking? && s.runners[o].renewed
      && var w := s.runners[o].work;
         w.index < |w.page.names|
         && var name := w.page.names[w.index];
            (KeyVerdict(env, w.values, s.conns, name) == Ok(true) ==> name in w.values && PayloadOk(env, w.values[name], sealed))
    case SelectRows(o) =>
      o in s.runners && s.runners[o].work == Begin && s.runners[o].renewed && s.runners[o].snap.phase == Verify
    case CheckRow(o) =>
      && o in s.runners && s.runners[o].work.Verifying? && s.runners[o].renewed
      && s.runners[o].work.index < |s.runners[o].work.rows|
    case CountRows(o) =>
      && o in s.runners && s.runners[o].work.Verifying? && s.runners[o].renewed
      && s.runners[o].work.index == |s.runners[o].work.rows|
      && VerifyDone(env, s.runners[o].snap, |s.runners[o].work.rows|)
    case DeleteKey(o, k) =>
      o in s.runners && s.runners[o].work.Cleaning? && k in s.runners[o].work.left
    case Commit(o) =>
      && o in s.runners && s.runners[o].renewed
      && match s.runners[o].work {
           case Listed(_) => s.runners[o].snap.phase == KvScan
           case Checking(page, _, index, _) => index == |page.names|
           case Verifying(rows, index) => index == |rows| && !VerifyDone(env, s.runners[o].snap, |rows|)
           case Counted(_) => true
           case Cleaning(_, left) => left == {}
           case _ => false
         }
    case Throw(o) => o in s.runners
    case RecordFailure(o) => o in s.runners && s.runners[o].work.Failing?
  }

  function At(s: System, o: Owner, r: Runner): System {
    s.(runners := s.runners[o := r])
  }

  function Apply(env: Env, s: System, a: Action): System
    requires Enabled(env, s, a)
  {
    match a
    case Acquire(o, now) =>
      (match Acquired(s.row, o, now)
       case None => s
       case Some(row) => At(s.(row := row), o, Runner(row, false, Begin)))
    case Retry => s.(row := Retried(s.row))
    case Renew(o, now) => ApplyRenew(s, o, now)
    case ListPage(o) => ApplyList(env, s, o)
    case GetValues(o) =>
      var r := s.runners[o];
      At(s, o, r.(work := Checking(r.work.page, Restrict(s.kv, r.work.page.names), 0, [])))
    case CheckKey(o, sealed) => ApplyCheckKey(env, s, o, sealed)
    case SelectRows(o) =>
      At(s, o, s.runners[o].(renewed := false, work := Verifying(Rows(env, s.conns, s.runners[o].snap.processed), 0)))
    case CheckRow(o) => ApplyCheckRow(env, s, o)
    case CountRows(o) => ApplyCount(s, o)
    case DeleteKey(o, k) =>
      var r := s.runners[o];
      At(s.(kv := s.kv - {k}), o, r.(work := r.work.(left := r.work.left - {k})))
    case Commit(o) => ApplyCommit(env, s, o)
    case Throw(o) => At(s, o, s.runners[o].(work := Failing(InternalError)))
    case RecordFailure(o) =>
      At(s.(row := FailedRow(s.row, o, s.runners[o].work.code)), o, s.runners[o].(work := Done))
  }

  function ApplyRenew(s: System, o: Owner, now: int): System
    requires o in s.runners
  {
    if Holds(s.row, o)
    then At(s.(row := s.row.(expires := Some(now + BOOTSTRAP_LEASE_MS))), o, s.runners[o].(renewed := true))
    else At(s, o, s.runners[o].(work := Failing(LeaseLost)))
  }

  function ApplyList(env: Env, s: System, o: Owner): System
    requires o in s.runners
  {
    var r := s.runners[o].(renewed := false);
    if r.snap.phase == KvCleanup then
      var names := ListKv(env.keys, s.kv, 0, env.cleanupBatch).names;
      At(s, o, r.(work := Cleaning(names, Elems(names))))
    else
      At(s, o, r.(work := Listed(ListKv(env.keys, s.kv, From(r.snap.cursor), env.kvBatch))))
  }

  function ApplyCheckKey(env: Env, s: System, o: Owner, sealed: Envelope): System
    requires o in s.runners && s.runners[o].work.Checking? && s.runners[o].work.index < |s.runners[o].work.page.names|
  {
    var w := s.runners[o].work;
    var name := w.page.names[w.index];
    var r := s.runners[o].(renewed := false);
    match KeyVerdict(env, w.values, s.conns, name)
    case Err(code) => At(s, o, r.(work := Failing(code)))
    case Ok(insert) =>
      var writes := if insert then w.writes + [Write(name, sealed)] else w.writes;
      At(s, o, r.(work := Checking(w.page, w.values, w.index + 1, writes)))
  }

  function ApplyCheckRow(env: Env, s: System, o: Owner): System
    requires o in s.runners && s.runners[o].work.Verifying? && s.runners[o].work.index < |s.runners[o].work.rows|
  {
    var w := s.runners[o].work;
    var r := s.runners[o].(renewed := false);
    var row := w.rows[w.index];
    var found := env.open(row.payload);
    if found.Some? && env.parses(found.value.plaintext, row.id)
    then At(s, o, r.(work := Verifying(w.rows, w.index + 1)))
    else At(s, o, r.(work := Failing(D1VerificationFailed)))
  }

  function ApplyCount(s: System, o: Owner): System
    requires o in s.runners && s.runners[o].work.Verifying?
  {
    var r := s.runners[o].(renewed := false);
    var rows := r.work.rows;
    if |s.conns| != r.snap.total || r.snap.processed + |rows| != r.snap.total
    then At(s, o, r.(work := Failing(D1VerificationFailed)))
    else At(s, o, r.(work := Counted(rows)))
  }

  /** The last statement of a phase is guarded by the owner; the inserts beside it are not. */
  function ApplyCommit(env: Env, s: System, o: Owner): System
    requires o in s.runners
  {
    var r := s.runners[o];
    var mine := s.row.owner == Some(o);
    match r.work
    case Listed(page) =>
      At(if mine then s.(row := ScanCommit(s.row, r.snap, page)) else s, o, r.(work := Done))
    case Checking(page, _, _, writes) =>
      if Conflict(s.conns, writes) then At(s, o, r.(work := Failing(InternalError)))
      else
        var t := s.(conns := Inserted(s.conns, writes));
        At(if mine then t.(row := MigrateCommit(s.row, r.snap, page)) else t, o, r.(work := Done))
    case Verifying(rows, _) =>
      At(if mine then s.(row := VerifyCommit(env, s.row, r.snap, |rows|)) else s, o, r.(work := Done))
    case Counted(rows) =>
      At(if mine then s.(row := VerifyCommit(env, s.row, r.snap, |rows|)) else s, o, r.(work := Done))
    case Cleaning(names, _) =>
      At(if mine then s.(row := CleanupCommit(s.row, r.snap, |names|)) else s, o, r.(work := Done))
    case _ => s
  }
}
