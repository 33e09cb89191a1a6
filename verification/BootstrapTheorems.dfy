/** The promises of the bootstrap, over every run of any number of runners. */
module BootstrapTheorems {
  import opened Common
  import opened BootstrapModel
  import opened KvPaging
  import opened BootstrapProtocol
  import opened BootstrapSafety

  /** The calls `run` lead from s to t. */
  ghost predicate Leads(env: Env, s: System, run: seq<Action>, t: System)
    decreases |run|
  {
    if run == [] then s == t
    else Enabled(env, s, run[0]) && Leads(env, Apply(env, s, run[0]), run[1..], t)
  }

  lemma {:induction false} LeadsKeeps(env: Env, s: System, run: seq<Action>, t: System)
    requires ValidEnv(env) && Inv(env, s) && Leads(env, s, run, t)
    ensures Inv(env, t)
    decreases |run|
  {
    if run != [] {
      StepKeeps(env, s, run[0]);
      LeadsKeeps(env, Apply(env, s, run[0]), run[1..], t);
    }
  }

  lemma ReachableOk(env: Env, run: seq<Action>, s: System)
    requires ValidEnv(env) && Leads(env, Initial(env), run, s)
    ensures Inv(env, s)
  {
    InitialOk(env);
    LeadsKeeps(env, Initial(env), run, s);
  }

  // ---- the lease ----

  function Caller(a: Action): Option<Owner> {
    match a
    case Retry => None
    case Acquire(o, _) => Some(o)
    case Renew(o, _) => Some(o)
    case ListPage(o) => Some(o)
    case GetValues(o) => Some(o)
    case CheckKey(o, _) => Some(o)
    case SelectRows(o) => Some(o)
    case CheckRow(o) => Some(o)
    case CountRows(o) => Some(o)
    case DeleteKey(o, _) => Some(o)
    case Commit(o) => Some(o)
    case Throw(o) => Some(o)
    case RecordFailure(o) => Some(o)
  }

  lemma StaysLost(env: Env, s: System, o: Owner, a: Action)
    requires Enabled(env, s, a) && o in s.runners && s.row.owner != Some(o)
    ensures o in Apply(env, s, a).runners && Apply(env, s, a).row.owner != Some(o)
    ensures Caller(a) == Some(o) ==> Apply(env, s, a).row == s.row
  {
    if a.Commit? {
      CommitStaysLost(env, s, o, a.o);
    }
  }

  lemma CommitStaysLost(env: Env, s: System, o: Owner, p: Owner)
    requires Enabled(env, s, Commit(p)) && o in s.runners && s.row.owner != Some(o)
    ensures o in ApplyCommit(env, s, p).runners && ApplyCommit(env, s, p).row.owner != Some(o)
    ensures p == o ==> ApplyCommit(env, s, p).row == s.row
  {
  }

  /** A runner that once lost the lease never holds it again, and none of its calls changes the row. */
  lemma {:induction false} LostLease(env: Env, s: System, o: Owner, run: seq<Action>, t: System)
    requires Leads(env, s, run, t) && o in s.runners && s.row.owner != Some(o)
    ensures o in t.runners && t.row.owner != Some(o)
    ensures forall a :: Enabled(env, t, a) && Caller(a) == Some(o) ==> Apply(env, t, a).row == t.row
    decreases |run|
  {
    if run != [] {
      var u := Apply(env, s, run[0]);
      StaysLost(env, s, o, run[0]);
      LostLease(env, u, o, run[1..], t);
    } else {
      forall a | Enabled(env, t, a) && Caller(a) == Some(o) ensures Apply(env, t, a).row == t.row {
        StaysLost(env, t, o, a);
      }
    }
  }

  /** The keys a runner listed for deletion. */
  function ListedBy(r: Runner): nat {
    if r.work.Cleaning? then |r.work.names| else 0
  }

  /** One phase step, applied to the row and the stores as they stand; `listed` is the size of a cleanup page. */
  ghost predicate PhaseStep(env: Env, s: System, listed: nat, after: Row) {
    var row := s.row;
    match row.phase
    case KvScan =>
      var page := ListKv(env.keys, s.kv, From(row.cursor), env.kvBatch);
      && after.phase == (if page.next.None? then KvMigrate else KvScan)
      && after.cursor == page.next && after.processed == 0 && after.total == row.total + |page.names|
    case KvMigrate =>
      var page := ListKv(env.keys, s.kv, From(row.cursor), env.kvBatch);
      && after.phase == (if page.next.None? then Verify else KvMigrate)
      && after.cursor == page.next && after.total == row.total
      && after.processed == (if page.next.None? then 0 else Min(row.total, row.processed + |page.names|))
    case Verify =>
      var count := |Select(env, s.conns, row.processed, env.verifyBatch)|;
      var done := count < env.verifyBatch || row.processed + count >= row.total;
      && after.phase == (if done then KvCleanup else Verify)
      && after.cursor == None && after.total == row.total
      && after.processed == (if done then 0 else row.processed + count)
    case KvCleanup =>
      && after.cursor == None && after.total == row.total && listed <= env.cleanupBatch
      && if listed == 0 then after.phase == Complete && s.kv == map[] && after.processed == row.total
         else after.phase == KvCleanup && after.processed == Min(row.total, row.processed + listed)
    case Complete => false
  }

  lemma KvCommitIsPhaseStep(env: Env, s: System, o: Owner)
    requires ValidEnv(env) && Inv(env, s) && Enabled(env, s, Commit(o)) && s.row.owner == Some(o)
    requires s.runners[o].work.Listed? || s.runners[o].work.Checking?
    requires s.runners[o].work.Checking? ==> !Conflict(s.conns, s.runners[o].work.writes)
    ensures PhaseStep(env, s, ListedBy(s.runners[o]), Apply(env, s, Commit(o)).row)
  {
    assert RunnerOk(env, s.row, s.kv, s.conns, o, s.runners[o]);
  }

  lemma VerifyCommitIsPhaseStep(env: Env, s: System, o: Owner)
    requires ValidEnv(env) && Inv(env, s) && Enabled(env, s, Commit(o)) && s.row.owner == Some(o)
    requires s.runners[o].work.Verifying? || s.runners[o].work.Counted?
    ensures PhaseStep(env, s, ListedBy(s.runners[o]), Apply(env, s, Commit(o)).row)
  {
    assert RunnerOk(env, s.row, s.kv, s.conns, o, s.runners[o]);
  }

  lemma CleanupCommitIsPhaseStep(env: Env, s: System, o: Owner)
    requires ValidEnv(env) && Inv(env, s) && Enabled(env, s, Commit(o)) && s.row.owner == Some(o)
    requires s.runners[o].work.Cleaning?
    ensures PhaseStep(env, s, ListedBy(s.runners[o]), Apply(env, s, Commit(o)).row)
  {
    assert RunnerOk(env, s.row, s.kv, s.conns, o, s.runners[o]);
  }

  lemma ConflictMovesNothing(env: Env, s: System, o: Owner)
    requires Enabled(env, s, Commit(o)) && s.runners[o].work.Checking? && Conflict(s.conns, s.runners[o].work.writes)
    ensures Apply(env, s, Commit(o)).row == s.row
  {
  }

  /** Only a commit of the holder changes phase, cursor, processed or total. */
  lemma OnlyCommitsMove(env: Env, s: System, a: Action)
    requires Enabled(env, s, a) && !SameData(s.row, Apply(env, s, a).row)
    ensures a.Commit? && s.row.owner == Some(a.o)
  {
  }

  /** Every change of phase, cursor, processed or total is one commit of the holder, and is that phase step. */
  lemma CommitIsPhaseStep(env: Env, s: System, a: Action)
    requires ValidEnv(env) && Inv(env, s) && Enabled(env, s, a)
    requires !SameData(s.row, Apply(env, s, a).row)
    ensures a.Commit? && s.row.owner == Some(a.o)
    ensures PhaseStep(env, s, ListedBy(s.runners[a.o]), Apply(env, s, a).row)
  {
    OnlyCommitsMove(env, s, a);
    var o := a.o;
    var work := s.runners[o].work;
    if work.Listed? || work.Checking? {
      if work.Checking? && Conflict(s.conns, work.writes) { ConflictMovesNothing(env, s, o); }
      KvCommitIsPhaseStep(env, s, o);
    } else if work.Cleaning? {
      CleanupCommitIsPhaseStep(env, s, o);
    } else {
      VerifyCommitIsPhaseStep(env, s, o);
    }
  }

  lemma CommitIsPhaseStepInRun(env: Env, run: seq<Action>, s: System, a: Action)
    requires ValidEnv(env) && Leads(env, Initial(env), run, s) && Enabled(env, s, a)
    ensures SameData(s.row, Apply(env, s, a).row) ||
            (a.Commit? && s.row.owner == Some(a.o) && PhaseStep(env, s, ListedBy(s.runners[a.o]), Apply(env, s, a).row))
  {
    ReachableOk(env, run, s);
    if !SameData(s.row, Apply(env, s, a).row) {
      CommitIsPhaseStep(env, s, a);
    }
  }

  // ---- nothing is lost ----

  lemma OnlyDeletesRemove(env: Env, s: System, a: Action, k: Id)
    requires Enabled(env, s, a) && k in s.kv && k !in Apply(env, s, a).kv
    ensures a.DeleteKey? && a.k == k
  {
  }

  /** A key is deleted from KV only when D1 holds its connection with the same plaintext. */
  lemma DeletesAreSafe(env: Env, run: seq<Action>, s: System, a: Action, k: Id)
    requires ValidEnv(env) && Leads(env, Initial(env), run, s) && Enabled(env, s, a)
    requires k in s.kv && k !in Apply(env, s, a).kv
    ensures k in s.conns && Faithful(env, k, s.conns[k]) && s.kv[k] == env.values[k]
  {
    ReachableOk(env, run, s);
    OnlyDeletesRemove(env, s, a, k);
    assert RunnerOk(env, s.row, s.kv, s.conns, a.o, s.runners[a.o]);
    assert k in env.keys;
  }

  /** At the end KV has no connection key left, and D1 has exactly the original ids with their plaintexts. */
  lemma CompleteLosesNothing(env: Env, run: seq<Action>, s: System)
    requires ValidEnv(env) && Leads(env, Initial(env), run, s) && s.row.phase == Complete
    ensures s.row.status == Finished && s.kv == map[]
    ensures s.conns.Keys == env.values.Keys
    ensures forall k :: k in s.conns ==>
              var raw, kept := env.open(env.values[k]), env.open(s.conns[k]);
              && raw.Some? && kept.Some? && kept.value.plaintext == raw.value.plaintext && kept.value.version == V3
              && (raw.value.version == V3 ==> s.conns[k] == env.values[k])
  {
    ReachableOk(env, run, s);
    assert forall k :: k in env.values ==> k in env.keys;
    forall k | k in s.conns ensures Faithful(env, k, s.conns[k]) {}
  }

  // ---- progress shown to the user ----

  /** Math.round of a + b * processed / total, all in halves of 1 / total. */
  function Rounded(base: nat, span: nat, processed: nat, total: nat): nat
    requires total > 0
  {
    (2 * (base * total + span * (if processed <= total then processed else total)) + total) / (2 * total)
  }

  function Scaled(base: nat, span: nat, processed: nat, total: nat): nat {
    if total > 0 then Rounded(base, span, processed, total) else base
  }

  function PercentOf(row: Row): nat {
    if row.status == Finished || row.phase == Complete then 100
    else
      match row.phase
      case KvScan => 5
      case KvMigrate => Scaled(10, 50, row.processed, row.total)
      case Verify => Scaled(60, 25, row.processed, row.total)
      case KvCleanup => Scaled(85, 14, row.processed, row.total)
      case Complete => 100
  }

  lemma MulMonotone(x: nat, y: nat, d: nat)
    requires x <= y
    ensures x * d <= y * d
  {
  }

  lemma QuotientBounds(a: nat, d: nat)
    requires d > 0
    ensures (a / d) * d <= a < (a / d + 1) * d
  {
    assert a == d * (a / d) + a % d;
    assert (a / d + 1) * d == (a / d) * d + d;
  }

  lemma DivMonotone(a: nat, b: nat, d: nat)
    requires d > 0 && a <= b
    ensures a / d <= b / d
  {
    QuotientBounds(a, d);
    QuotientBounds(b, d);
    if b / d < a / d {
      MulMonotone(b / d + 1, a / d, d);
      assert false;
    }
  }

  lemma DivUnique(a: nat, d: nat, q: nat)
    requires d > 0 && q * d <= a < (q + 1) * d
    ensures a / d == q
  {
    QuotientBounds(a, d);
    if a / d < q {
      MulMonotone(a / d + 1, q, d);
      assert false;
    } else if q < a / d {
      MulMonotone(q + 1, a / d, d);
      assert false;
    }
  }

  lemma DivExact(k: nat, d: nat)
    requires d > 0
    ensures (2 * (k * d) + d) / (2 * d) == k
  {
    assert k * (2 * d) == 2 * (k * d);
    assert (k + 1) * (2 * d) == 2 * (k * d) + 2 * d;
    DivUnique(2 * (k * d) + d, 2 * d, k);
  }

  lemma ScaledBounds(base: nat, span: nat, processed: nat, total: nat)
    ensures base <= Scaled(base, span, processed, total) <= base + span
  {
    if total > 0 {
      var p := if processed <= total then processed else total;
      assert span * p <= span * total;
      assert base * total + span * total == (base + span) * total;
      DivExact(base, total);
      DivExact(base + span, total);
      DivMonotone(2 * (base * total) + total, 2 * (base * total + span * p) + total, 2 * total);
      DivMonotone(2 * (base * total + span * p) + total, 2 * ((base + span) * total) + total, 2 * total);
    }
  }

  lemma ScaledMonotone(base: nat, span: nat, p: nat, q: nat, total: nat)
    requires p <= q
    ensures Scaled(base, span, p, total) <= Scaled(base, span, q, total)
  {
    if total > 0 {
      var x, y := if p <= total then p else total, if q <= total then q else total;
      QuotientMonotone(base * total, span, x, y, total);
    }
  }

  lemma QuotientMonotone(base: nat, span: nat, x: nat, y: nat, total: nat)
    requires x <= y && total > 0
    ensures (2 * (base + span * x) + total) / (2 * total) <= (2 * (base + span * y) + total) / (2 * total)
  {
    MulMonotone(x, y, span);
    assert span * x == x * span && span * y == y * span;
    DivMonotone(2 * (base + span * x) + total, 2 * (base + span * y) + total, 2 * total);
  }

  /** The percentage p is base + span * done / total, rounded to the nearest whole number, halves up. */
  ghost predicate RoundsTo(base: nat, span: nat, done: nat, total: nat, p: nat) {
    2 * (p * total) <= 2 * (base * total + span * done) + total < 2 * (p * total) + 2 * total
  }

  lemma ScaledRounds(base: nat, span: nat, done: nat, total: nat)
    requires done <= total && total > 0
    ensures RoundsTo(base, span, done, total, Scaled(base, span, done, total))
  {
    var p := Scaled(base, span, done, total);
    QuotientBounds(2 * (base * total + span * done) + total, 2 * total);
    assert p * (2 * total) == 2 * (p * total);
    assert (p + 1) * (2 * total) == 2 * (p * total) + 2 * total;
  }

  /**
   The percentage shown: 5 while scanning, 100 at the end, and in between each phase has its own share - 10 to 60, 60 to
   85, 85 to 99 - of which it shows the part done, rounded; with nothing to do it shows the start of its share.
   */
  lemma PercentIsRounded(row: Row)
    requires row.status != Finished && row.processed <= row.total
    ensures row.phase == KvScan ==> PercentOf(row) == 5
    ensures row.phase == Complete ==> PercentOf(row) == 100
    ensures row.phase == KvMigrate ==>
              if row.total == 0 then PercentOf(row) == 10 else RoundsTo(10, 50, row.processed, row.total, PercentOf(row))
    ensures row.phase == Verify ==>
              if row.total == 0 then PercentOf(row) == 60 else RoundsTo(60, 25, row.processed, row.total, PercentOf(row))
    ensures row.phase == KvCleanup ==>
              if row.total == 0 then PercentOf(row) == 85 else RoundsTo(85, 14, row.processed, row.total, PercentOf(row))
  {
    if row.total > 0 {
      ScaledRounds(10, 50, row.processed, row.total);
      ScaledRounds(60, 25, row.processed, row.total);
      ScaledRounds(85, 14, row.processed, row.total);
    }
  }

  lemma ProcessedFits(env: Env, run: seq<Action>, s: System)
    requires ValidEnv(env) && Leads(env, Initial(env), run, s)
    ensures s.row.processed <= s.row.total
  {
    ReachableOk(env, run, s);
  }

  /** Along every run, with failures, retries and stale runners, the percentage never goes back, and 100 means complete. */
  lemma PercentNeverDrops(env: Env, run: seq<Action>, s: System, a: Action)
    requires ValidEnv(env) && Leads(env, Initial(env), run, s) && Enabled(env, s, a)
    ensures PercentOf(s.row) <= PercentOf(Apply(env, s, a).row)
    ensures PercentOf(s.row) == 100 <==> s.row.status == Finished
  {
    ReachableOk(env, run, s);
    StepKeeps(env, s, a);
    var t := Apply(env, s, a);
    ScaledBounds(10, 50, s.row.processed, s.row.total);
    ScaledBounds(60, 25, s.row.processed, s.row.total);
    ScaledBounds(85, 14, s.row.processed, s.row.total);
    if !SameData(s.row, t.row) {
      CommitIsPhaseStep(env, s, a);
      PercentOfStep(env, s, ListedBy(s.runners[a.o]), t.row);
    }
  }

  lemma PercentOfStep(env: Env, s: System, listed: nat, after: Row)
    requires PhaseStep(env, s, listed, after) && s.row.status != Finished && s.row.processed <= s.row.total
    requires s.row.phase == KvScan || s.row.total == after.total
    ensures PercentOf(s.row) <= PercentOf(after)
  {
    var p, q, n := s.row.processed, after.processed, after.total;
    if s.row.phase == after.phase && s.row.phase != KvScan {
      assert p <= q;
      ScaledMonotone(10, 50, p, q, n);
      ScaledMonotone(60, 25, p, q, n);
      ScaledMonotone(85, 14, p, q, n);
    }
    ScaledBounds(10, 50, p, n);
    ScaledBounds(60, 25, p, n);
    ScaledBounds(85, 14, p, n);
    ScaledBounds(10, 50, q, n);
    ScaledBounds(60, 25, q, n);
    ScaledBounds(85, 14, q, n);
  }
}
