/** In which order the cache keeps its keys: as long as nothing fails, it is the tail of the recency list. */
module KeyCacheOrder {
  import opened Common
  import opened KeyCacheKeys
  import opened KeyCache

  function Keys(es: seq<Entry>): seq<string> {
    seq(|es|, i requires 0 <= i < |es| => es[i].key)
  }

  function Removed(keys: seq<string>, key: string): seq<string> {
    if keys == [] then [] else (if keys[0] == key then [] else [keys[0]]) + Removed(keys[1..], key)
  }

  /** All keys ever looked up, each once, the least recently used first. */
  function ByRecency(lookups: seq<string>): seq<string> {
    if lookups == [] then []
    else
      var key := lookups[|lookups| - 1];
      Removed(ByRecency(lookups[..|lookups| - 1]), key) + [key]
  }

  function LastOf(keys: seq<string>, n: nat): seq<string> {
    if |keys| <= n then keys else keys[|keys| - n..]
  }

  function CacheKeys(xs: seq<Input>): seq<string> {
    seq(|xs|, i requires 0 <= i < |xs| => CacheKey(xs[i]))
  }

  function AfterLookups(xs: seq<Input>): Cache {
    if xs == [] then EMPTY else LookedUp(AfterLookups(xs[..|xs| - 1]), Wanted(xs[|xs| - 1]))
  }

  lemma {:induction false} RemovedAbsent(keys: seq<string>, key: string)
    requires key !in keys
    ensures Removed(keys, key) == keys
    decreases |keys|
  {
    if keys != [] { RemovedAbsent(keys[1..], key); }
  }

  lemma {:induction false} RemovedConcat(a: seq<string>, b: seq<string>, key: string)
    ensures Removed(a + b, key) == Removed(a, key) + Removed(b, key)
    decreases |a|
  {
    if a == [] {
      assert a + b == b;
    } else {
      assert (a + b)[1..] == a[1..] + b;
      RemovedConcat(a[1..], b, key);
    }
  }

  lemma {:induction false} DeletedKeys(es: seq<Entry>, key: string)
    ensures Keys(Deleted(es, key)) == Removed(Keys(es), key)
    decreases |es|
  {
    if es != [] {
      DeletedKeys(es[1..], key);
      assert Keys(es)[1..] == Keys(es[1..]);
      assert Keys(Deleted(es, key)) == (if es[0].key == key then [] else [es[0].key]) + Keys(Deleted(es[1..], key));
    }
  }

  ghost predicate NoneTwice(keys: seq<string>) {
    forall i, j :: 0 <= i < j < |keys| ==> keys[i] != keys[j]
  }

  lemma {:induction false} RemovedIs(keys: seq<string>, key: string)
    requires NoneTwice(keys)
    ensures NoneTwice(Removed(keys, key))
    ensures forall k :: k in Removed(keys, key) <==> k in keys && k != key
    ensures |Removed(keys, key)| == if key in keys then |keys| - 1 else |keys|
    decreases |keys|
  {
    if keys != [] {
      assert keys == [keys[0]] + keys[1..];
      RemovedIs(keys[1..], key);
      HeadIsOnce(keys);
    }
  }

  lemma HeadIsOnce(keys: seq<string>)
    requires NoneTwice(keys) && keys != []
    ensures keys[0] !in keys[1..]
  {
    forall i | 0 <= i < |keys| - 1 ensures keys[1..][i] != keys[0] {
      assert keys[1..][i] == keys[i + 1];
    }
  }

  lemma {:induction false} ByRecencyOnce(lookups: seq<string>)
    ensures NoneTwice(ByRecency(lookups))
    decreases |lookups|
  {
    if lookups != [] {
      ByRecencyOnce(lookups[..|lookups| - 1]);
      RemovedIs(ByRecency(lookups[..|lookups| - 1]), lookups[|lookups| - 1]);
    }
  }

  /** One use, on the bounded list. */
  function Used(tail: seq<string>, n: nat, key: string): seq<string>
    requires n > 0
  {
    if key in tail then Removed(tail, key) + [key]
    else (if |tail| >= n then tail[1..] else tail) + [key]
  }

  /** One use on the bounded list is one use on the full list, cut off again. */
  lemma TailOfMoved(all: seq<string>, n: nat, key: string)
    requires NoneTwice(all) && n > 0
    ensures LastOf(Removed(all, key) + [key], n) == Used(LastOf(all, n), n, key)
  {
    var tail := LastOf(all, n);
    var front := all[..|all| - |tail|];
    assert all == front + tail;
    RemovedConcat(front, tail, key);
    RemovedIs(tail, key);
    if key in tail {
      assert key !in front;
      RemovedAbsent(front, key);
      HitTail(front, Removed(tail, key), n, key);
    } else {
      RemovedAbsent(tail, key);
      RemovedIs(front, key);
      MissTail(Removed(front, key), tail, n, key);
    }
  }

  lemma HitTail(front: seq<string>, rest: seq<string>, n: nat, key: string)
    requires |rest| + 1 == n || (front == [] && |rest| + 1 <= n)
    ensures LastOf(front + rest + [key], n) == rest + [key]
  {
    var s := front + rest + [key];
    assert s[|front|..] == rest + [key];
    if front == [] { assert s == rest + [key]; }
  }

  lemma MissTail(front: seq<string>, tail: seq<string>, n: nat, key: string)
    requires n > 0 && (|tail| == n || (front == [] && |tail| <= n))
    ensures LastOf(front + tail + [key], n) == (if |tail| >= n then tail[1..] else tail) + [key]
  {
    var s := front + tail + [key];
    if |tail| == n {
      assert s[|front| + 1..] == tail[1..] + [key];
    } else {
      assert s == tail + [key];
    }
  }

  lemma GetIffKey(es: seq<Entry>, key: string)
    ensures Get(es, key).Some? <==> key in Keys(es)
  {
    GetIs(es, key);
    if Get(es, key).Some? {
      var i :| 0 <= i < |es| && es[i] == Entry(key, Get(es, key).value);
      assert Keys(es)[i] == key;
    }
  }

  lemma LookedUpKeys(c: Cache, d: Derivation)
    ensures Keys(LookedUp(c, d).entries) == Used(Keys(c.entries), KEY_CACHE_MAX, d.key)
  {
    GetIffKey(c.entries, d.key);
    DeletedKeys(c.entries, d.key);
  }

  /** As long as no derivation fails, the cache holds exactly the 16 keys used last, in the order of their last use. */
  lemma {:induction false} CacheIsLeastRecentlyUsed(xs: seq<Input>)
    ensures Keys(AfterLookups(xs).entries) == LastOf(ByRecency(CacheKeys(xs)), 16)
    decreases |xs|
  {
    if xs != [] {
      var n := |xs| - 1;
      CacheIsLeastRecentlyUsed(xs[..n]);
      assert CacheKeys(xs)[..n] == CacheKeys(xs[..n]);
      ByRecencyOnce(CacheKeys(xs[..n]));
      TailOfMoved(ByRecency(CacheKeys(xs[..n])), KEY_CACHE_MAX, CacheKey(xs[n]));
      LookedUpKeys(AfterLookups(xs[..n]), Wanted(xs[n]));
    }
  }

  // ---- with failures ----

  function LookupsIn(events: seq<Event>): seq<string> {
    if events == [] then []
    else (if events[0].Lookup? then [CacheKey(events[0].x)] else []) + LookupsIn(events[1..])
  }

  /** When the key was looked up last, counted from 1; 0 is never. */
  function LastUse(lookups: seq<string>, key: string): nat {
    if lookups == [] then 0
    else if lookups[|lookups| - 1] == key then |lookups|
    else LastUse(lookups[..|lookups| - 1], key)
  }

  ghost predicate InOrder(es: seq<Entry>, lookups: seq<string>) {
    forall i, j :: 0 <= i < j < |es| ==> LastUse(lookups, es[i].key) < LastUse(lookups, es[j].key)
  }

  lemma {:induction false} DeletedInOrder(es: seq<Entry>, lookups: seq<string>, key: string)
    requires InOrder(es, lookups)
    ensures InOrder(Deleted(es, key), lookups)
    ensures forall e :: e in Deleted(es, key) ==> e in es && e.key != key
    decreases |es|
  {
    if es != [] {
      DeletedInOrder(es[1..], lookups, key);
      assert es == [es[0]] + es[1..];
    }
  }

  lemma {:induction false} LastUseBound(lookups: seq<string>, key: string)
    ensures LastUse(lookups, key) <= |lookups|
    decreases |lookups|
  {
    if lookups != [] { LastUseBound(lookups[..|lookups| - 1], key); }
  }

  lemma UsedInOrder(es: seq<Entry>, lookups: seq<string>, e: Entry)
    requires InOrder(es, lookups) && forall d :: d in es ==> d.key != e.key
    ensures InOrder(es + [e], lookups + [e.key])
  {
    var longer, more := es + [e], lookups + [e.key];
    assert more[..|lookups|] == lookups;
    forall i | 0 <= i < |es|
      ensures LastUse(more, longer[i].key) == LastUse(lookups, es[i].key) <= |lookups|
    {
      assert es[i] in es;
      LastUseBound(lookups, es[i].key);
    }
  }

  lemma LookupInOrder(c: Cache, lookups: seq<string>, d: Derivation)
    requires InOrder(c.entries, lookups)
    ensures InOrder(LookedUp(c, d).entries, lookups + [d.key])
  {
    GetIs(c.entries, d.key);
    var cached := Get(c.entries, d.key);
    if cached.Some? {
      DeletedInOrder(c.entries, lookups, d.key);
      UsedInOrder(Deleted(c.entries, d.key), lookups, Entry(d.key, cached.value));
    } else {
      var kept := if |c.entries| >= KEY_CACHE_MAX then c.entries[1..] else c.entries;
      assert forall e :: e in kept ==> e in c.entries;
      UsedInOrder(kept, lookups, Entry(d.key, |c.started|));
    }
  }

  /** In every run, failures included, the entries stand in the order of their last use: the first is the one to evict. */
  lemma {:induction false} EntriesInOrder(c: Cache, lookups: seq<string>, events: seq<Event>, d: Cache)
    requires InOrder(c.entries, lookups) && Runs(c, events, d)
    ensures InOrder(d.entries, lookups + LookupsIn(events))
    decreases |events|
  {
    if events == [] {
      assert lookups + [] == lookups;
    } else {
      var rest := LookupsIn(events[1..]);
      match events[0] {
        case Lookup(x) =>
          LookupInOrder(c, lookups, Wanted(x));
          EntriesInOrder(LookedUp(c, Wanted(x)), lookups + [CacheKey(x)], events[1..], d);
          assert lookups + [CacheKey(x)] + rest == lookups + ([CacheKey(x)] + rest);
        case Failure(p) =>
          DeletedInOrder(c.entries, lookups, c.started[p].key);
          EntriesInOrder(Failed(c, p), lookups, events[1..], d);
          assert [] + rest == rest;
      }
    }
  }
}
