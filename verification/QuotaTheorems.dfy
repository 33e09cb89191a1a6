/** The purged list answers like the map, keeps the limits, and remembers exactly the renewed leases. */
module QuotaTheorems {
  import opened QuotaModel

  ghost predicate Distinct(list: seq<Lease>) {
    forall i, j :: 0 <= i < j < |list| ==> list[i].key != list[j].key
  }

  /** The list holds exactly the leases of the map, each once. */
  ghost predicate Holds(list: seq<Lease>, m: Leases) {
    && Distinct(list)
    && (forall x :: x in list ==> x.key in m && m[x.key] == x.expires)
    && (forall k :: k in m ==> Lease(k, m[k]) in list)
  }

  lemma {:induction false} LiveIs(list: seq<Lease>, now: int)
    requires Distinct(list)
    ensures Distinct(Live(list, now))
    ensures forall x :: x in Live(list, now) <==> x in list && x.expires > now
    decreases |list|
  {
    if list != [] {
      var n := |list| - 1;
      assert list == list[..n] + [list[n]];
      LiveIs(list[..n], now);
    }
  }

  lemma LiveHolds(list: seq<Lease>, m: Leases, now: int)
    requires Holds(list, m)
    ensures Holds(Live(list, now), At(m, now))
  {
    LiveIs(list, now);
  }

  lemma HasIff(list: seq<Lease>, m: Leases, key: Key)
    requires Holds(list, m)
    ensures Has(list, key) <==> key in m
  {
    if key in m {
      assert Lease(key, m[key]) in list;
    }
    if Has(list, key) {
      assert list[IndexOf(list, key)] in list;
    }
  }

  lemma RenewedHolds(list: seq<Lease>, m: Leases, key: Key, expires: int)
    requires Holds(list, m) && Has(list, key)
    ensures Holds(Renewed(list, key, expires), m[key := expires])
  {
    var at, after, n := IndexOf(list, key), Renewed(list, key, expires), m[key := expires];
    forall k | k in n ensures Lease(k, n[k]) in after {
      if k == key {
        assert after[at] == Lease(k, n[k]);
      } else {
        var i :| 0 <= i < |list| && list[i] == Lease(k, m[k]);
        assert after[i] == Lease(k, n[k]);
      }
    }
    forall x | x in after ensures x.key in n && n[x.key] == x.expires {
      var i :| 0 <= i < |after| && after[i] == x;
      assert list[i] in list;
    }
  }

  lemma AddedHolds(list: seq<Lease>, m: Leases, key: Key, expires: int)
    requires Holds(list, m) && key !in m
    ensures Holds(list + [Lease(key, expires)], m[key := expires])
  {
    forall i | 0 <= i < |list| ensures list[i].key != key {
      assert list[i] in list;
    }
  }

  lemma {:induction false} DroppedIs(list: seq<Lease>, key: Key)
    requires Distinct(list)
    ensures Distinct(Dropped(list, key))
    ensures forall x :: x in Dropped(list, key) <==> x in list && x.key != key
    decreases |list|
  {
    if list != [] {
      var n := |list| - 1;
      assert list == list[..n] + [list[n]];
      DroppedIs(list[..n], key);
    }
  }

  lemma RemovedSize(m: Leases, key: Key)
    ensures |m - {key}| == if key in m then |m| - 1 else |m|
  {
    assert (m - {key}).Keys == m.Keys - {key};
    assert |m| == |m.Keys| && |m - {key}| == |(m - {key}).Keys|;
  }

  lemma HoldsButLast(list: seq<Lease>, m: Leases)
    requires Holds(list, m) && list != []
    ensures var last := list[|list| - 1];
            last.key in m && Holds(list[..|list| - 1], m - {last.key})
  {
    assert list == list[..|list| - 1] + [list[|list| - 1]];
    assert list[|list| - 1] in list;
  }

  lemma {:induction false} SizeIs(list: seq<Lease>, m: Leases)
    requires Holds(list, m)
    ensures |list| == |m|
    decreases |list|
  {
    if list == [] {
      assert m.Keys == {};
      assert |m| == |m.Keys|;
    } else {
      var n := |list| - 1;
      HoldsButLast(list, m);
      SizeIs(list[..n], m - {list[n].key});
      RemovedSize(m, list[n].key);
    }
  }

  lemma SessionsWithout(m: Leases, key: Key, session: string)
    requires key in m
    ensures |Sessions(m, session)| == |Sessions(m - {key}, session)| + if key.session == session then 1 else 0
  {
    assert Sessions(m, session) == Sessions(m - {key}, session) + (if key.session == session then {key} else {});
  }

  lemma {:induction false} SessionIs(list: seq<Lease>, m: Leases, session: string)
    requires Holds(list, m)
    ensures InSession(list, session) == |Sessions(m, session)|
    decreases |list|
  {
    if list == [] {
      assert Sessions(m, session) == {};
    } else {
      var n := |list| - 1;
      HoldsButLast(list, m);
      SessionsWithout(m, list[n].key, session);
      SessionIs(list[..n], m - {list[n].key}, session);
    }
  }

  lemma DroppedHolds(list: seq<Lease>, m: Leases, key: Key)
    requires Holds(list, m)
    ensures Holds(Dropped(list, key), m - {key})
    ensures |Dropped(list, key)| != |list| <==> key in m
  {
    DroppedIs(list, key);
    assert Holds(Dropped(list, key), m - {key});
    SizeIs(list, m);
    SizeIs(Dropped(list, key), m - {key});
    RemovedSize(m, key);
  }

  /** A key that is new to both: both refuse at the same limit, or both add the lease. */
  lemma AcquireNew(c: Config, live: seq<Lease>, m: Leases, key: Key, now: int)
    requires Holds(live, m) && !Has(live, key) && key !in m && |live| == |m|
    ensures ListAcquire(c, live, key, |Sessions(m, key.session)|, now).1 == MapOp(c, m, Acquire(key), now).1
    ensures Holds(ListAcquire(c, live, key, |Sessions(m, key.session)|, now).0, MapOp(c, m, Acquire(key), now).0)
  {
    AddedHolds(live, m, key, now + c.leaseMs);
  }

  lemma AcquireFound(c: Config, live: seq<Lease>, m: Leases, key: Key, now: int)
    requires Holds(live, m) && Has(live, key) && key in m
    ensures ListAcquire(c, live, key, |Sessions(m, key.session)|, now).1 == MapOp(c, m, Acquire(key), now).1
    ensures Holds(ListAcquire(c, live, key, |Sessions(m, key.session)|, now).0, MapOp(c, m, Acquire(key), now).0)
  {
    RenewedHolds(live, m, key, now + c.leaseMs);
  }

  lemma AcquireRefines(c: Config, live: seq<Lease>, m: Leases, key: Key, now: int)
    requires Holds(live, m)
    ensures ListOp(c, live, Acquire(key), now).1 == MapOp(c, m, Acquire(key), now).1
    ensures Holds(ListOp(c, live, Acquire(key), now).0, MapOp(c, m, Acquire(key), now).0)
  {
    HasIff(live, m, key);
    SessionIs(live, m, key.session);
    SizeIs(live, m);
    if key in m { AcquireFound(c, live, m, key, now); } else { AcquireNew(c, live, m, key, now); }
  }

  lemma HeartbeatRefines(c: Config, live: seq<Lease>, m: Leases, key: Key, now: int)
    requires Holds(live, m)
    ensures ListOp(c, live, Heartbeat(key), now).1 == MapOp(c, m, Heartbeat(key), now).1
    ensures Holds(ListOp(c, live, Heartbeat(key), now).0, MapOp(c, m, Heartbeat(key), now).0)
  {
    HasIff(live, m, key);
    if key in m { RenewedHolds(live, m, key, now + c.leaseMs); }
  }

  /** One operation: the same answer, and again the same leases. */
  lemma StepRefines(c: Config, list: seq<Lease>, m: Leases, op: Op, now: int)
    requires Holds(list, m)
    ensures ListStep(c, list, op, now).1 == MapStep(c, m, op, now).1
    ensures Holds(ListStep(c, list, op, now).0, MapStep(c, m, op, now).0)
  {
    LiveHolds(list, m, now);
    OpRefines(c, Live(list, now), At(m, now), op, now);
  }

  lemma OpRefines(c: Config, live: seq<Lease>, m: Leases, op: Op, now: int)
    requires Holds(live, m)
    ensures ListOp(c, live, op, now).1 == MapOp(c, m, op, now).1
    ensures Holds(ListOp(c, live, op, now).0, MapOp(c, m, op, now).0)
  {
    match op {
      case Acquire(key) => AcquireRefines(c, live, m, key, now);
      case Heartbeat(key) => HeartbeatRefines(c, live, m, key, now);
      case Release(key) => DroppedHolds(live, m, key);
      case ActiveCount => SizeIs(live, m);
    }
  }

  lemma {:induction false} RunRefines(c: Config, run: seq<Timed>)
    ensures Holds(ListAfter(c, run), MapAfter(c, run))
    decreases |run|
  {
    if run != [] {
      var n := |run| - 1;
      RunRefines(c, run[..n]);
      StepRefines(c, ListAfter(c, run[..n]), MapAfter(c, run[..n]), run[n].op, run[n].now);
    }
  }

  /** On the list and on the map purged at the same instants every operation of every run answers alike. */
  lemma ListAnswersLikeMap(c: Config, run: seq<Timed>)
    requires run != []
    ensures ListAnswer(c, run) == MapAnswer(c, run)
  {
    var n := |run| - 1;
    RunRefines(c, run[..n]);
    StepRefines(c, ListAfter(c, run[..n]), MapAfter(c, run[..n]), run[n].op, run[n].now);
  }

  /** Purging earlier changes nothing: dropping at t and then at u is dropping at u. */
  lemma PurgeCommutes(m: Leases, t: int, u: int)
    requires t <= u
    ensures At(At(m, t), u) == At(m, u)
  {
  }

  lemma NothingToPurge(m: Leases, now: int)
    requires NoneExpired(m, now)
    ensures At(m, now) == m
  {
  }

  lemma Prefix(c: Config, run: seq<Moment>, n: nat)
    requires n <= |run| && MomentsForward(run) && TimersFire(c, run)
    ensures MomentsForward(run[..n]) && TimersFire(c, run[..n])
  {
    forall i | 0 <= i < n && run[i].Operate? ensures NoneExpired(EagerAfter(c, run[..n][..i]), run[..n][i].now) {
      assert run[..n][..i] == run[..i];
    }
  }

  lemma SameOperation(c: Config, eager: Leases, lazy: Leases, op: Op, t: int)
    requires NoneExpired(eager, t) && At(eager, t) == At(lazy, t)
    ensures MapOp(c, eager, op, t) == MapStep(c, lazy, op, t)
  {
    NothingToPurge(eager, t);
  }

  lemma EagerMore(c: Config, before: seq<Moment>, e: Moment)
    ensures EagerAfter(c, before + [e]) == EagerStep(c, EagerAfter(c, before), e)
  {
    assert (before + [e])[..|before|] == before;
  }

  lemma TickSeesNothing(before: seq<Moment>, t: int)
    ensures Operations(before + [Tick(t)]) == Operations(before)
  {
    assert (before + [Tick(t)])[..|before|] == before;
    assert Operations(before) + [] == Operations(before);
  }

  lemma TickAgrees(c: Config, before: seq<Moment>, t: int, now: int)
    requires t <= now
    requires At(EagerAfter(c, before), now) == At(MapAfter(c, Operations(before)), now)
    ensures At(EagerAfter(c, before + [Tick(t)]), now) == At(MapAfter(c, Operations(before + [Tick(t)])), now)
  {
    EagerMore(c, before, Tick(t));
    TickSeesNothing(before, t);
    PurgeCommutes(EagerAfter(c, before), t, now);
  }

  lemma OperationAgrees(c: Config, before: seq<Moment>, op: Op, t: int)
    requires NoneExpired(EagerAfter(c, before), t)
    requires At(EagerAfter(c, before), t) == At(MapAfter(c, Operations(before)), t)
    ensures EagerAfter(c, before + [Operate(op, t)]) == MapAfter(c, Operations(before + [Operate(op, t)]))
  {
    EagerMore(c, before, Operate(op, t));
    OperationsMore(before, op, t);
    MapMore(c, Operations(before), op, t);
    SameOperation(c, EagerAfter(c, before), MapAfter(c, Operations(before)), op, t);
  }

  /** The moments before the last one, and what is known of the last. */
  lemma LastMoment(c: Config, run: seq<Moment>)
    requires run != [] && MomentsForward(run) && TimersFire(c, run)
    ensures var n := |run| - 1;
            && run == run[..n] + [run[n]]
            && MomentsForward(run[..n]) && TimersFire(c, run[..n])
            && (n > 0 ==> run[..n][n - 1].now <= run[n].now)
            && (run[n].Operate? ==> NoneExpired(EagerAfter(c, run[..n]), run[n].now))
  {
    Prefix(c, run, |run| - 1);
  }

  /** From the last moment on, what the timers have left is what a purge of the lazy map would leave. */
  lemma {:induction false} TimersAgree(c: Config, run: seq<Moment>, now: int)
    requires MomentsForward(run) && TimersFire(c, run)
    requires run != [] ==> run[|run| - 1].now <= now
    ensures At(EagerAfter(c, run), now) == At(MapAfter(c, Operations(run)), now)
    decreases |run|
  {
    if run != [] {
      var n := |run| - 1;
      LastMoment(c, run);
      match run[n] {
        case Tick(t) =>
          TimersAgree(c, run[..n], now);
          TickAgrees(c, run[..n], t, now);
        case Operate(op, t) =>
          TimersAgree(c, run[..n], t);
          OperationAgrees(c, run[..n], op, t);
      }
    }
  }

  lemma OperationsMore(before: seq<Moment>, op: Op, now: int)
    ensures Operations(before + [Operate(op, now)]) == Operations(before) + [Timed(op, now)]
  {
    assert (before + [Operate(op, now)])[..|before|] == before;
  }

  lemma MapMore(c: Config, ops: seq<Timed>, op: Op, now: int)
    ensures MapAfter(c, ops + [Timed(op, now)]) == MapStep(c, MapAfter(c, ops), op, now).0
    ensures MapAnswer(c, ops + [Timed(op, now)]) == MapStep(c, MapAfter(c, ops), op, now).1
  {
    assert (ops + [Timed(op, now)])[..|ops|] == ops;
  }

  /**
   Lazy expiry is indistinguishable from eager expiry: with a forward clock every operation on the list, which is
   purged at operations only, answers as on the map whose leases are dropped by timers, at whatever further instants
   those may also fire.
   */
  lemma LazyIsEager(c: Config, run: seq<Moment>)
    requires run != [] && run[|run| - 1].Operate? && MomentsForward(run) && TimersFire(c, run)
    ensures ListAnswer(c, Operations(run)) == EagerAnswer(c, run)
  {
    var n := |run| - 1;
    var before, op, t := run[..n], run[n].op, run[n].now;
    LastMoment(c, run);
    TimersAgree(c, before, t);
    SameOperation(c, EagerAfter(c, before), MapAfter(c, Operations(before)), op, t);
    OperationsMore(before, op, t);
    MapMore(c, Operations(before), op, t);
    ListAnswersLikeMap(c, Operations(run));
  }

  /** A tick just before every operation. */
  function WithTimers(ops: seq<Timed>): seq<Moment> {
    if ops == [] then []
    else
      var last := ops[|ops| - 1];
      WithTimers(ops[..|ops| - 1]) + [Tick(last.now), Operate(last.op, last.now)]
  }

  lemma TickedInTime(c: Config, before: seq<Moment>, op: Op, t: int)
    requires TimersFire(c, before)
    ensures TimersFire(c, before + [Tick(t), Operate(op, t)])
  {
    var ticked := before + [Tick(t)];
    var run := before + [Tick(t), Operate(op, t)];
    EagerMore(c, before, Tick(t));
    forall i | 0 <= i < |run| && run[i].Operate? ensures NoneExpired(EagerAfter(c, run[..i]), run[i].now) {
      if i < |before| {
        assert run[..i] == before[..i] && run[i] == before[i];
      } else {
        assert run[..i] == ticked;
      }
    }
  }

  lemma TickedOperations(before: seq<Moment>, op: Op, t: int)
    ensures Operations(before + [Tick(t), Operate(op, t)]) == Operations(before) + [Timed(op, t)]
  {
    TickSeesNothing(before, t);
    OperationsMore(before + [Tick(t)], op, t);
    assert before + [Tick(t), Operate(op, t)] == before + [Tick(t)] + [Operate(op, t)];
  }

  /** So every run of operations has timers that fire in time. */
  lemma {:induction false} TimersExist(c: Config, ops: seq<Timed>)
    requires ClockForward(ops)
    ensures Operations(WithTimers(ops)) == ops && TimersFire(c, WithTimers(ops)) && MomentsForward(WithTimers(ops))
    ensures forall i :: 0 <= i < |WithTimers(ops)| ==> ops != [] && WithTimers(ops)[i].now <= ops[|ops| - 1].now
    decreases |ops|
  {
    if ops != [] {
      var n := |ops| - 1;
      var before, last := WithTimers(ops[..n]), ops[n];
      TimersExist(c, ops[..n]);
      TickedInTime(c, before, last.op, last.now);
      TickedOperations(before, last.op, last.now);
      assert ops == ops[..n] + [last];
    }
  }

  // ---- limits ----

  ghost predicate WithinLimits(c: Config, m: Leases) {
    |m| <= c.globalLimit && forall session :: |Sessions(m, session)| <= c.sessionLimit
  }

  lemma Fewer(a: Leases, b: Leases, session: string)
    requires a.Keys <= b.Keys
    ensures |a| <= |b| && |Sessions(a, session)| <= |Sessions(b, session)|
  {
    Subset(a.Keys, b.Keys);
    assert |a| == |a.Keys| && |b| == |b.Keys|;
    assert Sessions(a, session) <= Sessions(b, session);
    Subset(Sessions(a, session), Sessions(b, session));
  }

  lemma Subset(a: set<Key>, b: set<Key>)
    requires a <= b
    ensures |a| <= |b|
  {
    assert b == a + (b - a);
  }

  lemma AtWithin(c: Config, m: Leases, now: int)
    requires WithinLimits(c, m)
    ensures WithinLimits(c, At(m, now))
  {
    Fewer(At(m, now), m, "");
    forall session ensures |Sessions(At(m, now), session)| <= c.sessionLimit {
      Fewer(At(m, now), m, session);
    }
  }

  lemma UpdatedWithin(c: Config, m: Leases, key: Key, expires: int)
    requires WithinLimits(c, m)
    requires key in m || (|Sessions(m, key.session)| < c.sessionLimit && |m| < c.globalLimit)
    ensures WithinLimits(c, m[key := expires])
  {
    var after := m[key := expires];
    assert after.Keys == m.Keys + {key};
    forall session ensures |Sessions(after, session)| <= c.sessionLimit {
      assert Sessions(after, session) == Sessions(m, session) + (if session == key.session then {key} else {});
      if key in m && session == key.session {
        assert Sessions(after, session) == Sessions(m, session);
      }
    }
  }

  lemma ReleasedWithin(c: Config, m: Leases, key: Key)
    requires WithinLimits(c, m)
    ensures WithinLimits(c, m - {key})
  {
    Fewer(m - {key}, m, "");
    forall session ensures |Sessions(m - {key}, session)| <= c.sessionLimit {
      Fewer(m - {key}, m, session);
    }
  }

  lemma OpWithin(c: Config, live: Leases, op: Op, now: int)
    requires WithinLimits(c, live)
    ensures WithinLimits(c, MapOp(c, live, op, now).0)
  {
    match op {
      case Acquire(key) =>
        if key in live || (|Sessions(live, key.session)| < c.sessionLimit && |live| < c.globalLimit) {
          UpdatedWithin(c, live, key, now + c.leaseMs);
        }
      case Heartbeat(key) => if key in live { UpdatedWithin(c, live, key, now + c.leaseMs); }
      case Release(key) => ReleasedWithin(c, live, key);
      case ActiveCount =>
    }
  }

  lemma StepWithin(c: Config, m: Leases, op: Op, now: int)
    requires WithinLimits(c, m)
    ensures WithinLimits(c, MapStep(c, m, op, now).0)
  {
    AtWithin(c, m, now);
    OpWithin(c, At(m, now), op, now);
  }

  /** At every instant after every run: at most sessionLimit live leases a session and globalLimit in all. */
  lemma {:induction false} LimitsHold(c: Config, run: seq<Timed>, now: int)
    ensures WithinLimits(c, At(MapAfter(c, run), now))
    ensures Distinct(ListAfter(c, run))
    decreases |run|
  {
    RunRefines(c, run);
    RunWithin(c, run);
    AtWithin(c, MapAfter(c, run), now);
  }

  lemma {:induction false} RunWithin(c: Config, run: seq<Timed>)
    ensures WithinLimits(c, MapAfter(c, run))
    decreases |run|
  {
    if run == [] {
      forall session ensures Sessions(map[], session) == {} {}
    } else {
      var n := |run| - 1;
      RunWithin(c, run[..n]);
      StepWithin(c, MapAfter(c, run[..n]), run[n].op, run[n].now);
    }
  }

  // ---- what a heartbeat tells ----

  /** The operation asks for the lease to be kept: an acquire or a heartbeat. */
  predicate Touches(op: Op, key: Key) {
    op == Acquire(key) || op == Heartbeat(key)
  }

  /** Operation i is an acquire of the lease that was granted. */
  predicate GrantedAt(c: Config, run: seq<Timed>, key: Key, i: nat) {
    i < |run| && run[i].op == Acquire(key) && ListAnswer(c, run[..i + 1]).Granted?
  }

  predicate NotReleasedSince(run: seq<Timed>, key: Key, i: nat) {
    forall j :: i < j < |run| ==> run[j].op != Release(key)
  }

  /** From operation i to now, no two acquires or heartbeats for the lease in a row are leaseMs or more apart. */
  predicate NoGap(c: Config, run: seq<Timed>, key: Key, i: nat, now: int)
    requires i < |run|
    decreases |run|
  {
    var n := |run| - 1;
    if n == i then now < run[i].now + c.leaseMs
    else if Touches(run[n].op, key) then now < run[n].now + c.leaseMs && NoGap(c, run[..n], key, i, run[n].now)
    else NoGap(c, run[..n], key, i, now)
  }

  predicate KeptFrom(c: Config, run: seq<Timed>, key: Key, i: nat, now: int) {
    GrantedAt(c, run, key, i) && NotReleasedSince(run, key, i) && NoGap(c, run, key, i, now)
  }

  /** Granted once, not released since, and never left leaseMs without an acquire or a heartbeat. */
  ghost predicate KeptAlive(c: Config, run: seq<Timed>, key: Key, now: int) {
    exists i: nat :: KeptFrom(c, run, key, i, now)
  }

  /** Whether the answer of an operation renews the lease. */
  predicate Renews(op: Op, answer: Answer, key: Key) {
    || (op == Acquire(key) && answer.Granted?)
    || (op == Heartbeat(key) && answer == Alive(true))
  }

  /** What one operation means for one lease at any later instant. */
  lemma StepOnLease(c: Config, m: Leases, op: Op, now: int, key: Key, later: int)
    requires now <= later && c.leaseMs > 0
    ensures var (after, answer) := MapStep(c, m, op, now);
            key in At(after, later) <==>
              if Renews(op, answer, key) then later < now + c.leaseMs
              else op != Release(key) && key in At(m, later)
  {
  }

  lemma GrantedBefore(c: Config, run: seq<Timed>, key: Key, i: nat)
    requires i < |run| - 1
    ensures GrantedAt(c, run, key, i) <==> GrantedAt(c, run[..|run| - 1], key, i)
  {
    assert run[..i + 1] == run[..|run| - 1][..i + 1];
  }

  /** A later operation that does not touch the lease leaves its history as it is. */
  lemma OtherFrom(c: Config, run: seq<Timed>, key: Key, i: nat, now: int)
    requires i < |run| - 1 && !Touches(run[|run| - 1].op, key) && run[|run| - 1].op != Release(key)
    ensures KeptFrom(c, run, key, i, now) <==> KeptFrom(c, run[..|run| - 1], key, i, now)
  {
    GrantedBefore(c, run, key, i);
  }

  /** After an acquire or a heartbeat the lease is kept from an earlier grant exactly if it was, and not for too long. */
  lemma TouchedFrom(c: Config, run: seq<Timed>, key: Key, i: nat, now: int)
    requires i < |run| - 1 && Touches(run[|run| - 1].op, key)
    ensures KeptFrom(c, run, key, i, now)
            <==> now < run[|run| - 1].now + c.leaseMs && KeptFrom(c, run[..|run| - 1], key, i, run[|run| - 1].now)
  {
    GrantedBefore(c, run, key, i);
  }

  lemma OtherOperation(c: Config, run: seq<Timed>, key: Key, now: int)
    requires run != [] && !Touches(run[|run| - 1].op, key) && run[|run| - 1].op != Release(key)
    ensures KeptAlive(c, run, key, now) <==> KeptAlive(c, run[..|run| - 1], key, now)
  {
    var before := run[..|run| - 1];
    if KeptAlive(c, run, key, now) {
      var i: nat :| KeptFrom(c, run, key, i, now);
      OtherFrom(c, run, key, i, now);
      assert KeptFrom(c, before, key, i, now);
    }
    if KeptAlive(c, before, key, now) {
      var i: nat :| KeptFrom(c, before, key, i, now);
      OtherFrom(c, run, key, i, now);
      assert KeptFrom(c, run, key, i, now);
    }
  }

  lemma TouchedAgain(c: Config, run: seq<Timed>, key: Key, now: int)
    requires run != [] && Touches(run[|run| - 1].op, key) && !GrantedAt(c, run, key, |run| - 1)
    ensures KeptAlive(c, run, key, now)
            <==> now < run[|run| - 1].now + c.leaseMs && KeptAlive(c, run[..|run| - 1], key, run[|run| - 1].now)
  {
    var before, t := run[..|run| - 1], run[|run| - 1].now;
    if KeptAlive(c, run, key, now) {
      var i: nat :| KeptFrom(c, run, key, i, now);
      TouchedFrom(c, run, key, i, now);
      assert KeptFrom(c, before, key, i, t);
    }
    if now < t + c.leaseMs && KeptAlive(c, before, key, t) {
      var i: nat :| KeptFrom(c, before, key, i, t);
      TouchedFrom(c, run, key, i, now);
      assert KeptFrom(c, run, key, i, now);
    }
  }

  lemma JustGranted(c: Config, run: seq<Timed>, key: Key, now: int)
    requires run != [] && GrantedAt(c, run, key, |run| - 1)
    ensures KeptAlive(c, run, key, now) <==> now < run[|run| - 1].now + c.leaseMs
  {
    var n := |run| - 1;
    if now < run[n].now + c.leaseMs {
      assert KeptFrom(c, run, key, n, now);
    }
  }

  lemma JustReleased(c: Config, run: seq<Timed>, key: Key, now: int)
    requires run != [] && run[|run| - 1].op == Release(key)
    ensures !KeptAlive(c, run, key, now)
  {
  }

  /** From the last operation on, the map holds a lease exactly while it is kept alive. */
  lemma {:induction false} LiveIffKeptAlive(c: Config, run: seq<Timed>, key: Key, now: int)
    requires ClockForward(run) && c.leaseMs > 0
    requires forall i :: 0 <= i < |run| ==> run[i].now <= now
    ensures key in At(MapAfter(c, run), now) <==> KeptAlive(c, run, key, now)
    decreases |run|
  {
    if run != [] {
      var n := |run| - 1;
      var before, op, t := run[..n], run[n].op, run[n].now;
      ListAnswersLikeMap(c, run);
      assert run[..n + 1] == run;
      LiveIffKeptAlive(c, before, key, now);
      LiveIffKeptAlive(c, before, key, t);
      StepOnLease(c, MapAfter(c, before), op, t, key, now);
      LeaseAfterStep(c, run, key, now);
    }
  }

  lemma LeaseAfterStep(c: Config, run: seq<Timed>, key: Key, now: int)
    requires run != [] && c.leaseMs > 0 && run[|run| - 1].now <= now
    requires var n := |run| - 1; var before, op, t := run[..n], run[n].op, run[n].now;
             && (key in At(MapAfter(c, before), now) <==> KeptAlive(c, before, key, now))
             && (key in At(MapAfter(c, before), t) <==> KeptAlive(c, before, key, t))
             && ListAnswer(c, run) == MapAnswer(c, run)
    ensures var n := |run| - 1; var before, op, t := run[..n], run[n].op, run[n].now;
            KeptAlive(c, run, key, now) <==>
              if Renews(op, MapAnswer(c, run), key) then now < t + c.leaseMs
              else op != Release(key) && key in At(MapAfter(c, before), now)
  {
    var n := |run| - 1;
    assert run[..n + 1] == run;
    if run[n].op == Release(key) {
      JustReleased(c, run, key, now);
    } else if !Touches(run[n].op, key) {
      OtherOperation(c, run, key, now);
    } else if GrantedAt(c, run, key, n) {
      JustGranted(c, run, key, now);
    } else {
      TouchedAgain(c, run, key, now);
    }
  }

  /**
   A heartbeat is answered yes exactly when the lease was granted, not released since, and never left leaseMs without
   an acquire or a heartbeat, up to and including this one.
   */
  lemma HeartbeatExact(c: Config, run: seq<Timed>, key: Key, now: int)
    requires ClockForward(run) && c.leaseMs > 0
    requires forall i :: 0 <= i < |run| ==> run[i].now <= now
    ensures ListAnswer(c, run + [Timed(Heartbeat(key), now)]) == Alive(KeptAlive(c, run, key, now))
  {
    var longer := run + [Timed(Heartbeat(key), now)];
    assert longer[..|longer| - 1] == run;
    ListAnswersLikeMap(c, longer);
    LiveIffKeptAlive(c, run, key, now);
  }

  // ---- what every operation answers ----

  /** The leases that are kept alive at an instant. */
  ghost predicate AliveSet(c: Config, run: seq<Timed>, now: int, alive: set<Key>) {
    forall k :: k in alive <==> KeptAlive(c, run, k, now)
  }

  /** The answer in terms of the leases kept alive: renew or grant, the session's limit before the limit for all. */
  ghost predicate AnswersFor(c: Config, alive: set<Key>, op: Op, now: int, answer: Answer) {
    match op
    case Acquire(key) =>
      answer ==
        (if key in alive then Granted(now + c.leaseMs)
         else if |set k | k in alive && k.session == key.session| >= c.sessionLimit then SessionLimit
         else if |alive| >= c.globalLimit then GlobalLimit
         else Granted(now + c.leaseMs))
    case Heartbeat(key) => answer == Alive(key in alive)
    case Release(key) => answer == Freed(key in alive)
    case ActiveCount => answer == Active(|alive|)
  }

  lemma MapAnswersFor(c: Config, live: Leases, op: Op, now: int)
    ensures AnswersFor(c, live.Keys, op, now, MapOp(c, live, op, now).1)
  {
    assert |live| == |live.Keys|;
    if op.Acquire? {
      assert (set k | k in live.Keys && k.session == op.key.session) == Sessions(live, op.key.session);
    }
  }

  /**
   Every answer of every run with a forward clock, from the requests alone: with the leases granted, not released since
   and kept alive, an acquire renews or is granted exactly below both limits, a heartbeat and a release tell whether the
   lease is one of them, and the count is their number.
   */
  lemma AnswersExactly(c: Config, run: seq<Timed>, op: Op, now: int)
    returns (alive: set<Key>)
    requires ClockForward(run) && c.leaseMs > 0
    requires forall i :: 0 <= i < |run| ==> run[i].now <= now
    ensures AliveSet(c, run, now, alive)
    ensures AnswersFor(c, alive, op, now, ListAnswer(c, run + [Timed(op, now)]))
  {
    var longer, live := run + [Timed(op, now)], At(MapAfter(c, run), now);
    assert longer[..|longer| - 1] == run;
    ListAnswersLikeMap(c, longer);
    MapAnswersFor(c, live, op, now);
    forall k ensures k in live.Keys <==> KeptAlive(c, run, k, now) { LiveIffKeptAlive(c, run, k, now); }
    alive := live.Keys;
  }

  /** With the limits of the source: a lease lasts 30 seconds, a session has at most 3 and all sessions at most 10. */
  lemma DefaultLimits(run: seq<Timed>, now: int)
    ensures var m := At(MapAfter(DEFAULT, run), now);
            |m| <= 10 && forall session :: |Sessions(m, session)| <= 3
    ensures DEFAULT.leaseMs == 30000
  {
    LimitsHold(DEFAULT, run, now);
  }
}
