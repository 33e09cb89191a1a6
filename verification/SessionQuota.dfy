/** The quota object over its storage: every operation reads the list, purges it, and writes it back. */
module SessionQuota {
  import opened Common
  import opened QuotaModel

  /** What the storage may hold under the key: nothing usable, or a list whose entries may be malformed. */
  datatype Entry = Usable(lease: Lease) | Malformed

  function UsableLeases(stored: Option<seq<Entry>>): seq<Lease> {
    if stored.None? then [] else Filtered(stored.value)
  }

  function Filtered(entries: seq<Entry>): seq<Lease> {
    if entries == [] then []
    else
      var last := entries[|entries| - 1];
      Filtered(entries[..|entries| - 1]) + (if last.Usable? then [last.lease] else [])
  }

  function Wrapped(list: seq<Lease>): seq<Entry> {
    seq(|list|, i requires 0 <= i < |list| => Usable(list[i]))
  }

  lemma {:induction false} FilteredWrapped(list: seq<Lease>)
    ensures Filtered(Wrapped(list)) == list
    decreases |list|
  {
    if list != [] {
      var n := |list| - 1;
      assert Wrapped(list)[..n] == Wrapped(list[..n]);
      FilteredWrapped(list[..n]);
      assert list == list[..n] + [list[n]];
    }
  }

  lemma FilteredOneMore(entries: seq<Entry>, i: nat, now: int)
    requires i < |entries|
    ensures Live(Filtered(entries[..i + 1]), now)
         == Live(Filtered(entries[..i]), now)
            + (if entries[i].Usable? && entries[i].lease.expires > now then [entries[i].lease] else [])
  {
    assert entries[..i + 1][..i] == entries[..i];
    var before := Filtered(entries[..i]);
    if entries[i].Usable? {
      assert (before + [entries[i].lease])[..|before|] == before;
    } else {
      assert Filtered(entries[..i + 1]) == before;
    }
  }

  class SshSessionQuota {
    const config: Config
    var stored: Option<seq<Entry>>

    constructor (config: Config)
      ensures this.config == config && stored == None
    {
      this.config, stored := config, None;
    }

    ghost function Leases(): seq<Lease>
      reads this
    {
      UsableLeases(stored)
    }

    method Put(list: seq<Lease>)
      modifies this
      ensures Leases() == list
    {
      FilteredWrapped(list);
      stored := Some(Wrapped(list));
    }

    /** activeLeases: the well-formed entries that have not expired. */
    method ActiveLeases(now: int) returns (list: seq<Lease>)
      ensures list == Live(Leases(), now)
    {
      list := [];
      if stored.None? { return; }
      var entries := stored.value;
      for i := 0 to |entries|
        invariant list == Live(Filtered(entries[..i]), now)
      {
        FilteredOneMore(entries, i, now);
        if entries[i].Usable? && entries[i].lease.expires > now {
          list := list + [entries[i].lease];
        }
      }
      assert entries[..|entries|] == entries;
    }

    method Find(list: seq<Lease>, key: Key) returns (at: nat)
      ensures at == IndexOf(list, key)
    {
      at := 0;
      while at < |list| && list[at].key != key
        invariant at <= |list|
        invariant forall j :: 0 <= j < at ==> list[j].key != key
      {
        at := at + 1;
      }
    }

    method CountInSession(list: seq<Lease>, session: string) returns (count: nat)
      ensures count == InSession(list, session)
    {
      count := 0;
      for i := 0 to |list|
        invariant count == InSession(list[..i], session)
      {
        assert list[..i + 1][..i] == list[..i];
        if list[i].key.session == session { count := count + 1; }
      }
      assert list[..|list|] == list;
    }

    method AcquireLease(key: Key, now: int) returns (r: Answer)
      modifies this
      ensures (Leases(), r) == ListStep(config, old(Leases()), Acquire(key), now)
    {
      var leases := ActiveLeases(now);
      var existing := Find(leases, key);
      var expires := now + config.leaseMs;
      if existing < |leases| {
        Put(leases[existing := Lease(key, expires)]);
        return Granted(expires);
      }
      var held := CountInSession(leases, key.session);
      if held >= config.sessionLimit {
        Put(leases);
        return SessionLimit;
      }
      if |leases| >= config.globalLimit {
        Put(leases);
        return GlobalLimit;
      }
      Put(leases + [Lease(key, expires)]);
      r := Granted(expires);
    }

    method KeepAlive(key: Key, now: int) returns (r: Answer)
      modifies this
      ensures (Leases(), r) == ListStep(config, old(Leases()), Heartbeat(key), now)
    {
      var leases := ActiveLeases(now);
      var existing := Find(leases, key);
      if existing == |leases| {
        Put(leases);
        return Alive(false);
      }
      Put(leases[existing := Lease(key, now + config.leaseMs)]);
      r := Alive(true);
    }

    method ReleaseLease(key: Key, now: int) returns (r: Answer)
      modifies this
      ensures (Leases(), r) == ListStep(config, old(Leases()), Release(key), now)
    {
      var leases := ActiveLeases(now);
      var remaining: seq<Lease> := [];
      for i := 0 to |leases|
        invariant remaining == Dropped(leases[..i], key)
      {
        assert leases[..i + 1][..i] == leases[..i];
        if leases[i].key != key { remaining := remaining + [leases[i]]; }
      }
      assert leases[..|leases|] == leases;
      Put(remaining);
      r := Freed(|remaining| != |leases|);
    }

    method CountActive(now: int) returns (r: Answer)
      modifies this
      ensures (Leases(), r) == ListStep(config, old(Leases()), ActiveCount, now)
    {
      var leases := ActiveLeases(now);
      Put(leases);
      r := Active(|leases|);
    }
  }
}
