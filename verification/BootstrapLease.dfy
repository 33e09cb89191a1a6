/** The lease: who may take it, what it holds, and for how long it keeps every other runner out. */
module BootstrapLease {
  import opened Common
  import opened BootstrapModel
  import opened BootstrapProtocol
  import opened BootstrapSafety
  import opened BootstrapTheorems

  /** The row may be taken: not finished, not failed, and no lease on it that has not expired. */
  ghost predicate Free(row: Row, now: int) {
    (row.status == Pending || row.status == Running) && (row.expires == None || row.expires.value < now)
  }

  /**
   A new owner's attempt takes the row exactly when it is free. It then holds it for 60 seconds, with the data of the row
   and everything else as they were; otherwise nothing changes at all.
   */
  lemma AcquireExactly(env: Env, s: System, o: Owner, now: int)
    requires Enabled(env, s, Acquire(o, now))
    ensures var t := Apply(env, s, Acquire(o, now));
            && (Free(s.row, now) ==>
                  && t.row == Row(Running, s.row.phase, s.row.processed, s.row.total, s.row.cursor, s.row.error,
                                  Some(o), Some(now + 60000))
                  && t.runners == s.runners[o := Runner(t.row, false, Begin)]
                  && t.kv == s.kv && t.conns == s.conns)
            && (!Free(s.row, now) ==> t == s)
  {
  }

  /** A heartbeat moves the expiry of the holder's lease to 60 seconds from now; a runner that is not the holder fails. */
  lemma RenewExactly(env: Env, s: System, o: Owner, now: int)
    requires Enabled(env, s, Renew(o, now)) && Inv(env, s)
    ensures var t := Apply(env, s, Renew(o, now));
            && t.kv == s.kv && t.conns == s.conns
            && (s.row.owner == Some(o) ==>
                  && t.row == s.row.(expires := Some(now + 60000))
                  && t.runners == s.runners[o := s.runners[o].(renewed := true)])
            && (s.row.owner != Some(o) ==>
                  t.row == s.row && t.runners == s.runners[o := s.runners[o].(work := Failing(LeaseLost))])
  {
  }

  /** The clock of the last attempt or heartbeat of a runner after one more call. */
  function Touched(before: Option<int>, a: Action, o: Owner): Option<int> {
    match a
    case Acquire(p, now) => if p == o then Some(now) else before
    case Renew(p, now) => if p == o then Some(now) else before
    case _ => before
  }

  function LastTouch(before: Option<int>, run: seq<Action>, o: Owner): Option<int>
    decreases |run|
  {
    if run == [] then before else LastTouch(Touched(before, run[0], o), run[1..], o)
  }

  /** The lease of o, if o holds the row, runs out 60 seconds after `last`. */
  ghost predicate RunsOutAfter(row: Row, o: Owner, last: Option<int>) {
    row.owner == Some(o) ==> last.Some? && row.expires == Some(last.value + 60000)
  }

  lemma CommitLeavesExpiry(env: Env, s: System, p: Owner, o: Owner)
    requires Enabled(env, s, Commit(p)) && ApplyCommit(env, s, p).row.owner == Some(o)
    ensures s.row.owner == Some(o) && ApplyCommit(env, s, p).row.expires == s.row.expires
  {
  }

  /** A call that is neither an attempt nor a heartbeat leaves the expiry alone or gives the row up. */
  lemma OthersLeaveExpiry(env: Env, s: System, a: Action, o: Owner)
    requires Enabled(env, s, a) && !a.Acquire? && !a.Renew?
    ensures Apply(env, s, a).row.owner == Some(o) ==> s.row.owner == Some(o) && Apply(env, s, a).row.expires == s.row.expires
  {
    if a.Commit? && Apply(env, s, a).row.owner == Some(o) { CommitLeavesExpiry(env, s, a.o, o); }
  }

  lemma AcquireRunsOut(env: Env, s: System, p: Owner, now: int, o: Owner, last: Option<int>)
    requires Inv(env, s) && Enabled(env, s, Acquire(p, now)) && RunsOutAfter(s.row, o, last)
    ensures RunsOutAfter(Apply(env, s, Acquire(p, now)).row, o, Touched(last, Acquire(p, now), o))
  {
    AcquireExactly(env, s, p, now);
    assert s.row.owner.Some? ==> s.row.owner.value in s.runners;
  }

  lemma RenewRunsOut(env: Env, s: System, p: Owner, now: int, o: Owner, last: Option<int>)
    requires Inv(env, s) && Enabled(env, s, Renew(p, now)) && RunsOutAfter(s.row, o, last)
    ensures RunsOutAfter(Apply(env, s, Renew(p, now)).row, o, Touched(last, Renew(p, now), o))
  {
    RenewExactly(env, s, p, now);
  }

  lemma StepRunsOut(env: Env, s: System, a: Action, o: Owner, last: Option<int>)
    requires Inv(env, s) && Enabled(env, s, a) && RunsOutAfter(s.row, o, last)
    ensures RunsOutAfter(Apply(env, s, a).row, o, Touched(last, a, o))
  {
    if a.Acquire? {
      AcquireRunsOut(env, s, a.o, a.now, o, last);
    } else if a.Renew? {
      RenewRunsOut(env, s, a.o, a.now, o, last);
    } else {
      OthersLeaveExpiry(env, s, a, o);
    }
  }

  lemma {:induction false} RunRunsOut(env: Env, s: System, run: seq<Action>, t: System, o: Owner, last: Option<int>)
    requires ValidEnv(env) && Inv(env, s) && Leads(env, s, run, t) && RunsOutAfter(s.row, o, last)
    ensures RunsOutAfter(t.row, o, LastTouch(last, run, o))
    decreases |run|
  {
    if run != [] {
      StepRunsOut(env, s, run[0], o, last);
      StepKeeps(env, s, run[0]);
      RunRunsOut(env, Apply(env, s, run[0]), run[1..], t, o, Touched(last, run[0], o));
    }
  }

  /** In every run a running row expires 60 seconds after its holder's attempt or its last heartbeat. */
  lemma LeaseRunsOut(env: Env, run: seq<Action>, s: System, o: Owner)
    requires ValidEnv(env) && Leads(env, Initial(env), run, s) && s.row.owner == Some(o)
    ensures LastTouch(None, run, o).Some? && s.row.expires == Some(LastTouch(None, run, o).value + 60000)
  {
    InitialOk(env);
    RunRunsOut(env, Initial(env), run, s, o, None);
  }

  /**
   While a row is running, only a release, failure or heartbeat of its holder, or a takeover, touches it; and the runner
   that takes it over does so by a clock that is past 60 seconds after the holder's last sign of life.
   */
  lemma TakeoverIsLate(env: Env, run: seq<Action>, s: System, o: Owner, a: Action)
    requires ValidEnv(env) && Leads(env, Initial(env), run, s) && s.row.owner == Some(o) && Enabled(env, s, a)
    ensures Apply(env, s, a).row != s.row ==> Caller(a) == Some(o) || a.Acquire?
    ensures a.Acquire? && Apply(env, s, a).row != s.row ==>
              LastTouch(None, run, o).Some? && a.now > LastTouch(None, run, o).value + 60000
  {
    ReachableOk(env, run, s);
    LeaseRunsOut(env, run, s, o);
    if a.Acquire? {
      AcquireExactly(env, s, a.o, a.now);
    } else if Caller(a).Some? && Caller(a) != Some(o) {
      OnlyTheHolder(env, s, a);
    }
  }

  lemma OnlyTheHolder(env: Env, s: System, a: Action)
    requires Inv(env, s) && Enabled(env, s, a) && !a.Acquire? && Caller(a).Some? && s.row.owner != Caller(a)
    ensures Apply(env, s, a).row == s.row
  {
    if a.Commit? { CommitStaysLost(env, s, a.o, a.o); }
  }
}
