/**
 mapWithConcurrency: a fixed number of workers that draw indices from one counter, in every
 order in which their tasks may finish or fail.
 */
module ConcurrentMap {
  import opened Common

  datatype Worker = Running(index: nat) | Ended | Threw(index: nat)

  /**
   `results` is the array as far as it is filled; `begun` and `failed` record the tasks in the order in which they
   were started and in which they failed.
   */
  datatype Pool<R> = Pool(next: nat, workers: seq<Worker>, results: map<nat, R>, begun: seq<nat>, failed: seq<nat>)

  /** One turn of a worker's loop: draw an index, end or start its task. */
  function Drawn<R>(p: Pool<R>, n: nat): (Pool<R>, Worker) {
    if p.next >= n then (p.(next := p.next + 1), Ended)
    else (p.(next := p.next + 1, begun := p.begun + [p.next]), Running(p.next))
  }

  /** Array.from: the workers are created one after another, each drawing its first index. */
  function Created<R>(n: nat, count: nat): Pool<R> {
    if count == 0 then Pool(0, [], map[], [], [])
    else
      var (p, w) := Drawn(Created<R>(n, count - 1), n);
      p.(workers := p.workers + [w])
  }

  function Start<R>(n: nat, concurrency: nat): Pool<R> {
    Created(n, if concurrency < n then concurrency else n)
  }

  /** Worker i comes to the end of its task: the result is stored and the worker goes on, or the worker fails with it. */
  function Finished<T, R>(p: Pool<R>, items: seq<T>, task: T -> Option<R>, i: nat): Pool<R>
    requires i < |p.workers| && p.workers[i].Running? && p.workers[i].index < |items|
  {
    var index := p.workers[i].index;
    match task(items[index])
    case None => p.(workers := p.workers[i := Threw(index)], failed := p.failed + [index])
    case Some(value) =>
      var (q, w) := Drawn(p.(results := p.results[index := value]), |items|);
      q.(workers := q.workers[i := w])
  }

  predicate CanFinish<R>(p: Pool<R>, n: nat, i: nat) {
    i < |p.workers| && p.workers[i].Running? && p.workers[i].index < n
  }

  ghost predicate Runs<T, R>(p: Pool<R>, items: seq<T>, task: T -> Option<R>, order: seq<nat>, q: Pool<R>)
    decreases |order|
  {
    if order == [] then p == q
    else CanFinish(p, |items|, order[0]) && Runs(Finished(p, items, task, order[0]), items, task, order[1..], q)
  }

  datatype Outcome<R> = Waiting | Resolved(results: map<nat, R>) | Rejected(index: nat)

  /** Promise.all over the workers: the first failure rejects it, and it resolves when all have ended. */
  function OutcomeOf<R>(p: Pool<R>): Outcome<R> {
    if p.failed != [] then Rejected(p.failed[0])
    else if forall w :: w in p.workers ==> w == Ended then Resolved(p.results)
    else Waiting
  }

  // ---- what every order keeps ----

  function UpTo(k: nat): seq<nat> {
    seq(k, i => i)
  }

  /** Tasks are started once each, in order; each started one is running in exactly one worker, has its result stored, or failed. */
  ghost predicate Inv<T, R>(p: Pool<R>, items: seq<T>, task: T -> Option<R>) {
    var n := |items|;
    && p.begun == UpTo(Min(p.next, n))
    && RunningOk(p, n)
    && (forall k :: k in p.results ==> k < Min(p.next, n) && Some(p.results[k]) == task(items[k]))
    && (forall k :: 0 <= k < Min(p.next, n) ==> k in p.results || Running(k) in p.workers || k in p.failed)
    && (forall i :: 0 <= i < |p.workers| && p.workers[i].Ended? ==> p.next > n)
    && FailuresOk(p, items, task)
  }

  /** The running tasks are different ones, and not yet settled. */
  ghost predicate RunningOk<R>(p: Pool<R>, n: nat) {
    && (forall i :: 0 <= i < |p.workers| && p.workers[i].Running? ==>
          p.workers[i].index < Min(p.next, n) && p.workers[i].index !in p.results && p.workers[i].index !in p.failed)
    && (forall i, j :: 0 <= i < j < |p.workers| && p.workers[i].Running? ==> p.workers[i] != p.workers[j])
  }

  /** A failed task stays where it stopped its worker. */
  ghost predicate FailuresOk<T, R>(p: Pool<R>, items: seq<T>, task: T -> Option<R>) {
    && (forall k :: k in p.failed ==> k < Min(p.next, |items|) && task(items[k]) == None)
    && (forall i, j :: 0 <= i < j < |p.failed| ==> p.failed[i] != p.failed[j])
    && (forall k :: k in p.failed <==> Threw(k) in p.workers)
  }

  function FirstRunning(count: nat): seq<Worker> {
    seq(count, i requires 0 <= i < count => Running(i))
  }

  lemma {:induction false} CreatedIs<R>(n: nat, count: nat)
    requires count <= n
    ensures Created<R>(n, count) == Pool(count, FirstRunning(count), map[], UpTo(count), [])
    decreases count
  {
    if count > 0 {
      CreatedIs<R>(n, count - 1);
      assert FirstRunning(count) == FirstRunning(count - 1) + [Running(count - 1)];
      assert UpTo(count) == UpTo(count - 1) + [count - 1];
    } else {
      assert FirstRunning(0) == [] && UpTo(0) == [];
    }
  }

  lemma CreatedOk<T, R>(items: seq<T>, task: T -> Option<R>, count: nat)
    requires count <= |items|
    ensures Inv(Created<R>(|items|, count), items, task)
    ensures |Created<R>(|items|, count).workers| == count
  {
    CreatedIs<R>(|items|, count);
    forall k | 0 <= k < count ensures Running(k) in FirstRunning(count) {
      assert FirstRunning(count)[k] == Running(k);
    }
  }

  /** The other workers of a pool in which worker i has changed. */
  lemma OtherWorkers(before: seq<Worker>, i: nat, now: Worker, w: Worker)
    requires i < |before| && w != before[i] && w != now
    ensures w in before[i := now] <==> w in before
  {
    var after := before[i := now];
    if w in before {
      var j :| 0 <= j < |before| && before[j] == w;
      assert after[j] == w;
    }
    if w in after {
      var j :| 0 <= j < |after| && after[j] == w;
      assert before[j] == w;
    }
  }

  lemma AddsFailure<T, R>(p: Pool<R>, items: seq<T>, task: T -> Option<R>, i: nat)
    requires Inv(p, items, task) && CanFinish(p, |items|, i) && task(items[p.workers[i].index]) == None
    ensures FailuresOk(Finished(p, items, task, i), items, task)
  {
    var index, q := p.workers[i].index, Finished(p, items, task, i);
    assert q.workers[i] == Threw(index);
    forall k ensures k in q.failed <==> Threw(k) in q.workers {
      assert k in q.failed <==> k in p.failed || k == index;
      if k != index { OtherWorkers(p.workers, i, Threw(index), Threw(k)); }
    }
  }

  lemma FailedOk<T, R>(p: Pool<R>, items: seq<T>, task: T -> Option<R>, i: nat)
    requires Inv(p, items, task) && CanFinish(p, |items|, i) && task(items[p.workers[i].index]) == None
    ensures Inv(Finished(p, items, task, i), items, task)
  {
    var n, index, q := |items|, p.workers[i].index, Finished(p, items, task, i);
    AddsFailure(p, items, task, i);
    assert forall k :: k in q.failed <==> k in p.failed || k == index;
    forall k | 0 <= k < Min(q.next, n) ensures k in q.results || Running(k) in q.workers || k in q.failed {
      if k != index { OtherWorkers(p.workers, i, Threw(index), Running(k)); }
    }
  }

  lemma StoredCovers<T, R>(p: Pool<R>, items: seq<T>, task: T -> Option<R>, i: nat, k: nat)
    requires Inv(p, items, task) && CanFinish(p, |items|, i) && task(items[p.workers[i].index]).Some?
    requires k < Min(Finished(p, items, task, i).next, |items|)
    ensures var q := Finished(p, items, task, i); k in q.results || Running(k) in q.workers || k in q.failed
  {
    var q := Finished(p, items, task, i);
    if k == p.next {
      assert q.workers[i] == Running(k);
    } else if k != p.workers[i].index {
      OtherWorkers(p.workers, i, q.workers[i], Running(k));
    }
  }

  lemma StoredRunning<T, R>(p: Pool<R>, items: seq<T>, task: T -> Option<R>, i: nat)
    requires RunningOk(p, |items|) && FailuresOk(p, items, task) && forall k :: k in p.results ==> k < Min(p.next, |items|)
    requires CanFinish(p, |items|, i) && task(items[p.workers[i].index]).Some?
    ensures RunningOk(Finished(p, items, task, i), |items|)
  {
  }

  lemma StoredOk<T, R>(p: Pool<R>, items: seq<T>, task: T -> Option<R>, i: nat)
    requires Inv(p, items, task) && CanFinish(p, |items|, i) && task(items[p.workers[i].index]).Some?
    ensures Inv(Finished(p, items, task, i), items, task)
  {
    var q := Finished(p, items, task, i);
    assert q.begun == UpTo(Min(q.next, |items|));
    forall k | 0 <= k < Min(q.next, |items|) ensures k in q.results || Running(k) in q.workers || k in q.failed {
      StoredCovers(p, items, task, i, k);
    }
    StoredRunning(p, items, task, i);
    KeepsFailures(p, items, task, i);
  }

  lemma KeepsFailures<T, R>(p: Pool<R>, items: seq<T>, task: T -> Option<R>, i: nat)
    requires FailuresOk(p, items, task) && CanFinish(p, |items|, i) && task(items[p.workers[i].index]).Some?
    ensures FailuresOk(Finished(p, items, task, i), items, task)
  {
    var q := Finished(p, items, task, i);
    forall k ensures Threw(k) in q.workers <==> Threw(k) in p.workers {
      OtherWorkers(p.workers, i, q.workers[i], Threw(k));
    }
  }

  lemma FinishedOk<T, R>(p: Pool<R>, items: seq<T>, task: T -> Option<R>, i: nat)
    requires Inv(p, items, task) && CanFinish(p, |items|, i)
    ensures Inv(Finished(p, items, task, i), items, task)
    ensures |Finished(p, items, task, i).workers| == |p.workers|
  {
    if task(items[p.workers[i].index]).Some? { StoredOk(p, items, task, i); } else { FailedOk(p, items, task, i); }
  }

  lemma {:induction false} RunOk<T, R>(p: Pool<R>, items: seq<T>, task: T -> Option<R>, order: seq<nat>, q: Pool<R>)
    requires Inv(p, items, task) && Runs(p, items, task, order, q)
    ensures Inv(q, items, task) && |q.workers| == |p.workers|
    decreases |order|
  {
    if order != [] {
      FinishedOk(p, items, task, order[0]);
      RunOk(Finished(p, items, task, order[0]), items, task, order[1..], q);
    }
  }

  lemma ReachedOk<T, R>(items: seq<T>, concurrency: nat, task: T -> Option<R>, order: seq<nat>, p: Pool<R>)
    requires Runs(Start(|items|, concurrency), items, task, order, p)
    ensures Inv(p, items, task) && |p.workers| == Min(concurrency, |items|)
  {
    CreatedOk(items, task, if concurrency < |items| then concurrency else |items|);
    RunOk(Start(|items|, concurrency), items, task, order, p);
  }

  /**
   Whatever the order in which tasks finish or fail: they are started in order, each once, never more at a time than
   allowed, every stored result is that of its item, and once a worker has run out of items all have been started.
   */
  lemma EveryItemOnce<T, R>(items: seq<T>, concurrency: nat, task: T -> Option<R>, order: seq<nat>, p: Pool<R>)
    requires Runs(Start(|items|, concurrency), items, task, order, p)
    ensures |p.workers| == Min(concurrency, |items|)
    ensures p.begun == UpTo(Min(p.next, |items|)) && (Ended in p.workers ==> p.begun == UpTo(|items|))
    ensures forall k :: k in p.results ==> k < |items| && task(items[k]) == Some(p.results[k])
    ensures forall k :: k in p.failed ==> k < |items| && task(items[k]) == None
  {
    ReachedOk(items, concurrency, task, order, p);
  }

  lemma NoneThrew<T, R>(p: Pool<R>, items: seq<T>, task: T -> Option<R>)
    requires FailuresOk(p, items, task) && p.failed == []
    ensures forall w :: w in p.workers ==> !w.Threw?
  {
    forall k ensures Threw(k) !in p.workers {
      assert k !in p.failed;
    }
  }

  /**
   When no task is running any more, the call has resolved exactly if no item's task fails, and then every item has its
   own result in its own place; otherwise it has been rejected for an item whose task fails.
   */
  lemma ResolvesExactly<T, R>(items: seq<T>, concurrency: nat, task: T -> Option<R>, order: seq<nat>, p: Pool<R>)
    requires concurrency > 0 && Runs(Start(|items|, concurrency), items, task, order, p)
    requires forall w :: w in p.workers ==> !w.Running?
    ensures OutcomeOf(p).Resolved? <==> forall k :: 0 <= k < |items| ==> task(items[k]).Some?
    ensures OutcomeOf(p).Resolved? ==>
              forall k :: 0 <= k < |items| ==> k in p.results && task(items[k]) == Some(p.results[k])
    ensures !OutcomeOf(p).Resolved? ==>
              OutcomeOf(p).Rejected? && OutcomeOf(p).index < |items| && task(items[OutcomeOf(p).index]) == None
  {
    ReachedOk(items, concurrency, task, order, p);
    if p.failed != [] {
      assert p.failed[0] in p.failed;
    } else {
      NoneThrew(p, items, task);
      if items != [] { assert p.workers[0] in p.workers; }
    }
  }

  /** Once the call has resolved or been rejected, nothing that still runs changes its outcome. */
  lemma {:induction false} OutcomeStays<T, R>(p: Pool<R>, items: seq<T>, task: T -> Option<R>, order: seq<nat>, q: Pool<R>)
    requires Runs(p, items, task, order, q) && !OutcomeOf(p).Waiting?
    ensures OutcomeOf(q) == OutcomeOf(p)
    decreases |order|
  {
    if order != [] {
      assert p.workers[order[0]] in p.workers;
      OutcomeStays(Finished(p, items, task, order[0]), items, task, order[1..], q);
    }
  }

  /** The pool ends: every task that ends stores one more result or is one more failure, so there are at most as many as items. */
  lemma {:induction false} EachCompletionStoresOne<T, R>(p: Pool<R>, items: seq<T>, task: T -> Option<R>, order: seq<nat>, q: Pool<R>)
    requires Inv(p, items, task) && Runs(p, items, task, order, q)
    ensures |q.results| + |q.failed| == |p.results| + |p.failed| + |order| <= |items|
    decreases |order|
  {
    if order != [] {
      FinishedOk(p, items, task, order[0]);
      EachCompletionStoresOne(Finished(p, items, task, order[0]), items, task, order[1..], q);
    } else {
      TasksFit(p, items, task);
    }
  }

  function FailedSet(failed: seq<nat>): set<nat> {
    set k | k in failed
  }

  lemma {:induction false} FailedSize(failed: seq<nat>)
    requires forall i, j :: 0 <= i < j < |failed| ==> failed[i] != failed[j]
    ensures |FailedSet(failed)| == |failed|
    decreases |failed|
  {
    if failed != [] {
      var n := |failed| - 1;
      FailedSize(failed[..n]);
      assert failed == failed[..n] + [failed[n]];
      assert FailedSet(failed) == FailedSet(failed[..n]) + {failed[n]};
    }
  }

  lemma DisjointFit(stored: set<nat>, failed: set<nat>, n: nat)
    requires stored !! failed && forall k :: k in stored || k in failed ==> k < n
    ensures |stored| + |failed| <= n
  {
    var all := Indices(n);
    IndicesSize(n);
    forall k | k in stored + failed ensures k in all { assert UpTo(n)[k] == k; }
    assert all == stored + failed + (all - stored - failed);
  }

  lemma TasksFit<T, R>(p: Pool<R>, items: seq<T>, task: T -> Option<R>)
    requires Inv(p, items, task)
    ensures |p.results| + |p.failed| <= |items|
  {
    FailedSize(p.failed);
    forall k | k in p.results ensures k !in FailedSet(p.failed) {
      assert task(items[k]) == Some(p.results[k]);
    }
    DisjointFit(p.results.Keys, FailedSet(p.failed), |items|);
    assert |p.results| == |p.results.Keys|;
  }

  function Indices(n: nat): set<nat> {
    set k | k in UpTo(n)
  }

  lemma {:induction false} IndicesSize(n: nat)
    ensures |Indices(n)| == n
    decreases n
  {
    if n > 0 {
      IndicesSize(n - 1);
      assert UpTo(n) == UpTo(n - 1) + [n - 1];
      assert Indices(n) == Indices(n - 1) + {n - 1};
    }
  }
}
