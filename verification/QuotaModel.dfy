/**
 The lease quota: the stored list that is purged whenever it is used, and the plain map
 that drops each lease at the instant it expires.
 */
module QuotaModel {
  datatype Key = Key(session: string, lease: string)

  datatype Lease = Lease(key: Key, expires: int)

  datatype Config = Config(leaseMs: int, sessionLimit: nat, globalLimit: nat)

  const DEFAULT: Config := Config(30000, 3, 10)

  datatype Op = Acquire(key: Key) | Heartbeat(key: Key) | Release(key: Key) | ActiveCount

  datatype Answer =
    | Granted(expires: int)
    | SessionLimit
    | GlobalLimit
    | Alive(yes: bool)
    | Freed(yes: bool)
    | Active(count: nat)

  // ---- the list ----

  function Live(list: seq<Lease>, now: int): seq<Lease> {
    if list == [] then []
    else Live(list[..|list| - 1], now) + (if list[|list| - 1].expires > now then [list[|list| - 1]] else [])
  }

  /** Where `find` stops: the first lease with the key, or the end of the list. */
  function IndexOf(list: seq<Lease>, key: Key): (i: nat)
    ensures i <= |list|
    ensures i < |list| ==> list[i].key == key
    ensures forall j :: 0 <= j < i ==> list[j].key != key
  {
    if list == [] then 0
    else
      var n := |list| - 1;
      var i := IndexOf(list[..n], key);
      if i < n then i else if list[n].key == key then n else n + 1
  }

  predicate Has(list: seq<Lease>, key: Key) {
    IndexOf(list, key) < |list|
  }

  /** The list with the expiry of the found lease moved, in place. */
  function Renewed(list: seq<Lease>, key: Key, expires: int): seq<Lease>
    requires Has(list, key)
  {
    list[IndexOf(list, key) := Lease(key, expires)]
  }

  function Dropped(list: seq<Lease>, key: Key): seq<Lease> {
    if list == [] then []
    else Dropped(list[..|list| - 1], key) + (if list[|list| - 1].key == key then [] else [list[|list| - 1]])
  }

  function InSession(list: seq<Lease>, session: string): nat {
    if list == [] then 0
    else InSession(list[..|list| - 1], session) + (if list[|list| - 1].key.session == session then 1 else 0)
  }

  function ListStep(c: Config, list: seq<Lease>, op: Op, now: int): (seq<Lease>, Answer) {
    ListOp(c, Live(list, now), op, now)
  }

  /** acquire for a session that has so many leases in the purged list. */
  function ListAcquire(c: Config, live: seq<Lease>, key: Key, inSession: nat, now: int): (seq<Lease>, Answer) {
    if Has(live, key) then (Renewed(live, key, now + c.leaseMs), Granted(now + c.leaseMs))
    else if inSession >= c.sessionLimit then (live, SessionLimit)
    else if |live| >= c.globalLimit then (live, GlobalLimit)
    else (live + [Lease(key, now + c.leaseMs)], Granted(now + c.leaseMs))
  }

  /** The operation itself, on the purged list. */
  function ListOp(c: Config, live: seq<Lease>, op: Op, now: int): (seq<Lease>, Answer) {
    match op
    case Acquire(key) => ListAcquire(c, live, key, InSession(live, key.session), now)
    case Heartbeat(key) =>
      if Has(live, key) then (Renewed(live, key, now + c.leaseMs), Alive(true)) else (live, Alive(false))
    case Release(key) => (Dropped(live, key), Freed(|Dropped(live, key)| != |live|))
    case ActiveCount => (live, Active(|live|))
  }

  // ---- the map ----

  type Leases = map<Key, int>

  /** What is left of the map at an instant: each lease is gone from its expiry on. */
  function At(m: Leases, now: int): Leases {
    map k | k in m && m[k] > now :: m[k]
  }

  function Sessions(m: Leases, session: string): set<Key> {
    set k | k in m && k.session == session
  }

  function MapStep(c: Config, m: Leases, op: Op, now: int): (Leases, Answer) {
    MapOp(c, At(m, now), op, now)
  }

  function MapOp(c: Config, live: Leases, op: Op, now: int): (Leases, Answer) {
    match op
    case Acquire(key) =>
      if key in live then (live[key := now + c.leaseMs], Granted(now + c.leaseMs))
      else if |Sessions(live, key.session)| >= c.sessionLimit then (live, SessionLimit)
      else if |live| >= c.globalLimit then (live, GlobalLimit)
      else (live[key := now + c.leaseMs], Granted(now + c.leaseMs))
    case Heartbeat(key) => if key in live then (live[key := now + c.leaseMs], Alive(true)) else (live, Alive(false))
    case Release(key) => (live - {key}, Freed(key in live))
    case ActiveCount => (live, Active(|live|))
  }

  // ---- runs ----

  datatype Timed = Timed(op: Op, now: int)

  function ListAfter(c: Config, run: seq<Timed>): seq<Lease> {
    if run == [] then []
    else ListStep(c, ListAfter(c, run[..|run| - 1]), run[|run| - 1].op, run[|run| - 1].now).0
  }

  function MapAfter(c: Config, run: seq<Timed>): Leases {
    if run == [] then map[]
    else MapStep(c, MapAfter(c, run[..|run| - 1]), run[|run| - 1].op, run[|run| - 1].now).0
  }

  function ListAnswer(c: Config, run: seq<Timed>): Answer
    requires run != []
  {
    ListStep(c, ListAfter(c, run[..|run| - 1]), run[|run| - 1].op, run[|run| - 1].now).1
  }

  function MapAnswer(c: Config, run: seq<Timed>): Answer
    requires run != []
  {
    MapStep(c, MapAfter(c, run[..|run| - 1]), run[|run| - 1].op, run[|run| - 1].now).1
  }

  ghost predicate ClockForward(run: seq<Timed>) {
    forall i, j :: 0 <= i < j < |run| ==> run[i].now <= run[j].now
  }

  // ---- the map with timers ----

  /** An operation, or the instant at which timers drop what has expired. */
  datatype Moment = Operate(op: Op, now: int) | Tick(now: int)

  /** Leases leave the map at ticks only; an operation takes the map as it stands. */
  function EagerStep(c: Config, m: Leases, e: Moment): Leases {
    match e
    case Operate(op, now) => MapOp(c, m, op, now).0
    case Tick(now) => At(m, now)
  }

  function EagerAfter(c: Config, run: seq<Moment>): Leases {
    if run == [] then map[] else EagerStep(c, EagerAfter(c, run[..|run| - 1]), run[|run| - 1])
  }

  function EagerAnswer(c: Config, run: seq<Moment>): Answer
    requires run != [] && run[|run| - 1].Operate?
  {
    MapOp(c, EagerAfter(c, run[..|run| - 1]), run[|run| - 1].op, run[|run| - 1].now).1
  }

  /** What the quota object sees of a run. */
  function Operations(run: seq<Moment>): seq<Timed> {
    if run == [] then []
    else
      var last := run[|run| - 1];
      Operations(run[..|run| - 1]) + (if last.Operate? then [Timed(last.op, last.now)] else [])
  }

  /** No operation finds a lease in the map that has expired: the timers have fired in time. */
  ghost predicate TimersFire(c: Config, run: seq<Moment>) {
    forall i :: 0 <= i < |run| && run[i].Operate? ==> NoneExpired(EagerAfter(c, run[..i]), run[i].now)
  }

  ghost predicate NoneExpired(m: Leases, now: int) {
    forall k :: k in m ==> m[k] > now
  }

  ghost predicate MomentsForward(run: seq<Moment>) {
    forall i, j :: 0 <= i < j < |run| ==> run[i].now <= run[j].now
  }
}
