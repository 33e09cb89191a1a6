/**
 The cache of derived keys: a map in insertion order that keeps at most 16 promises,
 a hit moving to the end and a miss evicting the first. A promise is known by its number,
 the count of derivations started before it.
 */
module KeyCache {
  import opened Common
  import opened KeyCacheKeys

  const KEY_CACHE_MAX: nat := 16

  /** The two arguments of cachedDerivedKey: the cache key, and what the derivation would derive from. */
  datatype Derivation = Derivation(key: string, x: Input)

  /** The arguments both callers pass. */
  function Wanted(x: Input): Derivation {
    Derivation(CacheKey(x), x)
  }

  datatype Entry = Entry(key: string, promise: nat)

  /** The cache, and every derivation started so far. */
  datatype Cache = Cache(entries: seq<Entry>, started: seq<Derivation>)

  const EMPTY: Cache := Cache([], [])

  function Get(es: seq<Entry>, key: string): Option<nat> {
    if es == [] then None
    else if es[0].key == key then Some(es[0].promise)
    else Get(es[1..], key)
  }

  function Deleted(es: seq<Entry>, key: string): seq<Entry> {
    if es == [] then [] else (if es[0].key == key then [] else [es[0]]) + Deleted(es[1..], key)
  }

  /** The promise a lookup hands out. */
  function Promised(c: Cache, key: string): nat {
    var cached := Get(c.entries, key);
    if cached.Some? then cached.value else |c.started|
  }

  function LookedUp(c: Cache, d: Derivation): Cache {
    var cached := Get(c.entries, d.key);
    if cached.Some? then c.(entries := Deleted(c.entries, d.key) + [Entry(d.key, cached.value)])
    else
      var kept := if |c.entries| >= KEY_CACHE_MAX then c.entries[1..] else c.entries;
      Cache(kept + [Entry(d.key, |c.started|)], c.started + [d])
  }

  /** A derivation has failed: its entry goes, if it is still its own. */
  function Failed(c: Cache, promise: nat): Cache
    requires promise < |c.started|
  {
    var key := c.started[promise].key;
    if Get(c.entries, key) == Some(promise) then c.(entries := Deleted(c.entries, key)) else c
  }

  datatype Event = Lookup(x: Input) | Failure(promise: nat)

  predicate Possible(c: Cache, e: Event) {
    e.Failure? ==> e.promise < |c.started|
  }

  function Step(c: Cache, e: Event): Cache
    requires Possible(c, e)
  {
    match e
    case Lookup(x) => LookedUp(c, Wanted(x))
    case Failure(p) => Failed(c, p)
  }

  predicate Runs(c: Cache, events: seq<Event>, d: Cache)
    decreases |events|
  {
    if events == [] then c == d
    else Possible(c, events[0]) && Runs(Step(c, events[0]), events[1..], d)
  }

  // ---- the module's state ----

  class DerivedKeys {
    var keyCache: seq<Entry>
    var derivedTotal: nat
    ghost var started: seq<Derivation>

    ghost predicate Valid()
      reads this
    {
      derivedTotal == |started|
    }

    ghost function State(): Cache
      reads this
    {
      Cache(keyCache, started)
    }

    constructor ()
      ensures Valid() && State() == EMPTY
    {
      keyCache, derivedTotal, started := [], 0, [];
    }

    /** cachedDerivedKey up to the await; the promise it goes on to await is returned. */
    method CachedDerivedKey(cacheKey: string, ghost x: Input) returns (promise: nat)
      requires Valid()
      modifies this
      ensures Valid()
      ensures promise == Promised(old(State()), cacheKey)
      ensures State() == LookedUp(old(State()), Derivation(cacheKey, x))
    {
      var cached := Get(keyCache, cacheKey);
      if cached.Some? {
        keyCache := Deleted(keyCache, cacheKey);
        keyCache := keyCache + [Entry(cacheKey, cached.value)];
        return cached.value;
      }
      promise := derivedTotal;
      derivedTotal, started := derivedTotal + 1, started + [Derivation(cacheKey, x)];
      if |keyCache| >= KEY_CACHE_MAX { keyCache := keyCache[1..]; }
      keyCache := keyCache + [Entry(cacheKey, promise)];
    }

    /** The catch branch, run by the call that started the derivation. */
    method DerivationFailed(cacheKey: string, pending: nat)
      requires Valid() && pending < |started| && cacheKey == started[pending].key
      modifies this
      ensures Valid() && State() == Failed(old(State()), pending)
    {
      if Get(keyCache, cacheKey) == Some(pending) { keyCache := Deleted(keyCache, cacheKey); }
    }
  }

  // ---- every run ----

  ghost predicate DistinctKeys(es: seq<Entry>) {
    forall i, j :: 0 <= i < j < |es| ==> es[i].key != es[j].key
  }

  /** The entry holds a derivation started under its key. */
  predicate Faithful(e: Entry, started: seq<Derivation>) {
    e.promise < |started| && started[e.promise].key == e.key
  }

  ghost predicate Inv(c: Cache) {
    && |c.entries| <= KEY_CACHE_MAX && DistinctKeys(c.entries)
    && (forall e :: e in c.entries ==> Faithful(e, c.started))
    && (forall d :: d in c.started ==> d == Wanted(d.x))
  }

  lemma {:induction false} GetIs(es: seq<Entry>, key: string)
    ensures Get(es, key).Some? ==> Entry(key, Get(es, key).value) in es
    ensures Get(es, key).None? ==> forall e :: e in es ==> e.key != key
    decreases |es|
  {
    if es != [] && es[0].key != key {
      GetIs(es[1..], key);
      assert es == [es[0]] + es[1..];
    }
  }

  lemma {:induction false} DeletedIs(es: seq<Entry>, key: string)
    requires DistinctKeys(es)
    ensures DistinctKeys(Deleted(es, key))
    ensures forall e :: e in Deleted(es, key) <==> e in es && e.key != key
    ensures |Deleted(es, key)| == if Get(es, key).Some? then |es| - 1 else |es|
    decreases |es|
  {
    if es != [] {
      DeletedIs(es[1..], key);
      assert es == [es[0]] + es[1..];
      if es[0].key == key { GetIs(es[1..], key); }
    }
  }

  lemma Unique(es: seq<Entry>, a: Entry, b: Entry)
    requires DistinctKeys(es) && a in es && b in es && a.key == b.key
    ensures a == b
  {
  }

  lemma HitKeeps(c: Cache, d: Derivation)
    requires Inv(c) && Get(c.entries, d.key).Some?
    ensures Inv(LookedUp(c, d))
  {
    GetIs(c.entries, d.key);
    DeletedIs(c.entries, d.key);
  }

  lemma MissKeeps(c: Cache, d: Derivation)
    requires Inv(c) && Get(c.entries, d.key).None? && d == Wanted(d.x)
    ensures Inv(LookedUp(c, d))
  {
    GetIs(c.entries, d.key);
    var kept := if |c.entries| >= KEY_CACHE_MAX then c.entries[1..] else c.entries;
    forall e | e in kept ensures e in c.entries {}
  }

  lemma LookupKeeps(c: Cache, x: Input)
    requires Inv(c)
    ensures Inv(LookedUp(c, Wanted(x)))
  {
    var d := Wanted(x);
    if Get(c.entries, d.key).Some? { HitKeeps(c, d); } else { MissKeeps(c, d); }
  }

  lemma FailureKeeps(c: Cache, p: nat)
    requires Inv(c) && p < |c.started|
    ensures Inv(Failed(c, p))
  {
    DeletedIs(c.entries, c.started[p].key);
  }

  lemma {:induction false} RunKeeps(c: Cache, events: seq<Event>, d: Cache)
    requires Inv(c) && Runs(c, events, d)
    ensures Inv(d)
    decreases |events|
  {
    if events != [] {
      match events[0] {
        case Lookup(x) => LookupKeeps(c, x);
        case Failure(p) => FailureKeeps(c, p);
      }
      RunKeeps(Step(c, events[0]), events[1..], d);
    }
  }

  /**
   After any hits, misses, evictions and failures a lookup hands out a derivation of that very input,
   so that the key it yields is the one a direct derivation gives; and never more than 16 are kept.
   */
  lemma CacheIsTransparent(events: seq<Event>, c: Cache, x: Input)
    requires Runs(EMPTY, events, c)
    ensures |c.entries| <= 16
    ensures var p, after := Promised(c, CacheKey(x)), LookedUp(c, Wanted(x));
            p < |after.started| && after.started[p].x == x
  {
    RunKeeps(EMPTY, events, c);
    var key := CacheKey(x);
    GetIs(c.entries, key);
    var p := Get(c.entries, key);
    if p.Some? {
      assert Faithful(Entry(key, p.value), c.started);
      var d := c.started[p.value];
      assert d in c.started;
      CacheKeyInjective(d.x, x);
    }
  }

  /** A failure removes the entry of that derivation and nothing else: a newer one under the same key stays. */
  lemma FailureRemovesItsOwn(events: seq<Event>, c: Cache, p: nat, e: Entry)
    requires Runs(EMPTY, events, c) && p < |c.started|
    ensures e in Failed(c, p).entries <==> e in c.entries && e.promise != p
  {
    RunKeeps(EMPTY, events, c);
    OwnEntryGoes(c, p, e);
  }

  lemma OwnEntryGoes(c: Cache, p: nat, e: Entry)
    requires Inv(c) && p < |c.started|
    ensures e in Failed(c, p).entries <==> e in c.entries && e.promise != p
  {
    var key := c.started[p].key;
    GetIs(c.entries, key);
    DeletedIs(c.entries, key);
    if e in c.entries {
      assert Faithful(e, c.started);
      if Get(c.entries, key).Some? && e.key == key {
        Unique(c.entries, e, Entry(key, Get(c.entries, key).value));
      }
    }
  }

  // ---- how often a key is derived ----

  lemma {:induction false} GetLast(es: seq<Entry>, e: Entry)
    requires forall d :: d in es ==> d.key != e.key
    ensures Get(es + [e], e.key) == Some(e.promise)
    decreases |es|
  {
    if es != [] {
      assert es[0] in es && (es + [e])[1..] == es[1..] + [e];
      GetLast(es[1..], e);
    }
  }

  /** A lookup starts a derivation exactly if the cache has no entry under its key; otherwise it hands out that entry's. */
  lemma LookupDerivesExactly(events: seq<Event>, c: Cache, x: Input)
    requires Runs(EMPTY, events, c)
    ensures var after := LookedUp(c, Wanted(x));
            if exists e :: e in c.entries && e.key == CacheKey(x)
            then after.started == c.started && Entry(CacheKey(x), Promised(c, CacheKey(x))) in c.entries
            else after.started == c.started + [Wanted(x)] && Promised(c, CacheKey(x)) == |c.started|
  {
    GetIs(c.entries, CacheKey(x));
  }

  function Repeated(c: Cache, x: Input, n: nat): Cache {
    if n == 0 then c else LookedUp(Repeated(c, x, n - 1), Wanted(x))
  }

  lemma HitAgain(c: Cache, d: Derivation)
    requires Inv(c) && Get(c.entries, d.key).Some?
    ensures LookedUp(c, d).started == c.started && Get(LookedUp(c, d).entries, d.key) == Get(c.entries, d.key)
  {
    DeletedIs(c.entries, d.key);
    GetLast(Deleted(c.entries, d.key), Entry(d.key, Get(c.entries, d.key).value));
  }

  lemma MissEnters(c: Cache, d: Derivation)
    requires Inv(c) && Get(c.entries, d.key).None?
    ensures Get(LookedUp(c, d).entries, d.key) == Some(|c.started|)
  {
    GetIs(c.entries, d.key);
    var kept := if |c.entries| >= KEY_CACHE_MAX then c.entries[1..] else c.entries;
    forall e | e in kept ensures e.key != d.key { assert e in c.entries; }
    GetLast(kept, Entry(d.key, |c.started|));
  }

  /** However often one key is looked up in a row, it is derived once, and every lookup hands out the same derivation. */
  lemma {:induction false} RepeatedDerivesOnce(c: Cache, x: Input, n: nat)
    requires Inv(c) && n >= 1
    ensures Inv(Repeated(c, x, n)) && Repeated(c, x, n).started == LookedUp(c, Wanted(x)).started
    ensures Get(Repeated(c, x, n).entries, CacheKey(x)) == Some(Promised(c, CacheKey(x)))
    decreases n
  {
    var d := Wanted(x);
    if n == 1 {
      assert Repeated(c, x, 0) == c;
      LookupKeeps(c, x);
      if Get(c.entries, d.key).Some? { HitAgain(c, d); } else { MissEnters(c, d); }
    } else {
      RepeatedDerivesOnce(c, x, n - 1);
      LookupKeeps(Repeated(c, x, n - 1), x);
      HitAgain(Repeated(c, x, n - 1), d);
    }
  }
}
