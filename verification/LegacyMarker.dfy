/** When the completion marker of the legacy migration is written, and what it then means. */
module LegacyMarker {
  import opened Common
  import opened KvPaging
  import opened LegacyMigration

  /** The key is absent, or its envelope is v3. */
  ghost predicate Settled(w: World, kv: map<Id, Envelope>, k: Id) {
    k in kv ==> IsV3(w, kv[k])
  }

  ghost predicate EditsV3(w: World, e: Edits) {
    forall k :: k in e && e[k].Some? ==> IsV3(w, e[k].value)
  }

  /** Other writers only ever write v3 envelopes, as create and update do. */
  ghost predicate WritersV3(w: World) {
    forall id :: EditsV3(w, w.before(id)) && EditsV3(w, w.during(id)) && EditsV3(w, w.late(id))
  }

  ghost predicate AllSettled(w: World, kv: map<Id, Envelope>) {
    forall k :: k in w.keys ==> Settled(w, kv, k)
  }

  ghost predicate SettledUpTo(w: World, kv: map<Id, Envelope>, pos: nat) {
    forall i :: 0 <= i < |w.keys| && i < pos ==> Settled(w, kv, w.keys[i])
  }

  lemma EditSettles(w: World, s: Work, e: Edits, k: Id)
    requires EditsV3(w, e)
    ensures Settled(w, s.kv, k) ==> Settled(w, Outside(s, e).kv, k)
  {
  }

  lemma PutSettles(w: World, s: Work, id: Id, plaintext: string, k: Id)
    requires SealOpens(w) && EditsV3(w, w.late(id))
    ensures Settled(w, s.kv, k) ==> Settled(w, Put(w, s, id, plaintext).kv, k)
    ensures Settled(w, Put(w, s, id, plaintext).kv, id)
    ensures Put(w, s, id, plaintext).tally.blockers == s.tally.blockers
  {
    EditSettles(w, s, w.late(id), k);
  }

  lemma ReplacedSettles(w: World, s: Work, id: Id, raw: Envelope, plaintext: string, k: Id)
    requires SealOpens(w) && EditsV3(w, w.late(id))
    ensures s.tally.blockers <= Replaced(w, s, id, raw, plaintext).tally.blockers
    ensures Settled(w, s.kv, k) ==> Settled(w, Replaced(w, s, id, raw, plaintext).kv, k)
    ensures s.tally.blockers == Replaced(w, s, id, raw, plaintext).tally.blockers ==>
              Settled(w, Replaced(w, s, id, raw, plaintext).kv, id)
  {
    PutSettles(w, s, id, plaintext, k);
  }

  lemma KeySettles(w: World, s: Work, id: Id, k: Id)
    requires SealOpens(w) && WritersV3(w)
    ensures s.tally.blockers <= KeyDone(w, s, id).tally.blockers
    ensures Settled(w, s.kv, k) ==> Settled(w, KeyDone(w, s, id).kv, k)
    ensures s.tally.blockers == KeyDone(w, s, id).tally.blockers ==> Settled(w, KeyDone(w, s, id).kv, id)
  {
    assert EditsV3(w, w.before(id)) && EditsV3(w, w.during(id)) && EditsV3(w, w.late(id));
    var a := Outside(s, w.before(id)).(tally := s.tally.(scanned := s.tally.scanned + 1));
    EditSettles(w, s, w.before(id), k);
    if id in a.kv && w.open(a.kv[id]).Some? && !IsV3(w, a.kv[id]) {
      EditSettles(w, a, w.during(id), k);
      ReplacedSettles(w, Outside(a, w.during(id)), id, a.kv[id], w.open(a.kv[id]).value.plaintext, k);
    }
  }

  lemma {:induction false} KeysSettle(w: World, s: Work, names: seq<Id>, k: Id)
    requires SealOpens(w) && WritersV3(w)
    ensures s.tally.blockers <= KeysDone(w, s, names).tally.blockers
    ensures Settled(w, s.kv, k) ==> Settled(w, KeysDone(w, s, names).kv, k)
    ensures s.tally.blockers == KeysDone(w, s, names).tally.blockers && k in names ==> Settled(w, KeysDone(w, s, names).kv, k)
    decreases |names|
  {
    if names != [] {
      var n := |names| - 1;
      KeysSettle(w, s, names[..n], k);
      KeySettles(w, KeysDone(w, s, names[..n]), names[n], k);
      assert names == names[..n] + [names[n]];
    }
  }

  /** A listed page names every key present between its start and its stop. */
  lemma {:induction false} PageCovers(keys: seq<Id>, kv: map<Id, Envelope>, pos: nat, limit: nat, i: nat)
    requires pos <= i < Stop(keys, kv, pos, limit) && i < |keys| && keys[i] in kv
    ensures keys[i] in Names(keys, kv, pos, limit)
    decreases |keys| - pos
  {
    if i != pos { PageCovers(keys, kv, pos + 1, if keys[pos] in kv then limit - 1 else limit, i); }
  }

  lemma {:induction false} StopAdvances(keys: seq<Id>, kv: map<Id, Envelope>, pos: nat, limit: nat)
    ensures pos <= Stop(keys, kv, pos, limit)
    ensures limit > 0 && pos < |keys| ==> pos < Stop(keys, kv, pos, limit) <= |keys|
    decreases |keys| - pos
  {
    if limit != 0 && pos < |keys| { StopAdvances(keys, kv, pos + 1, if keys[pos] in kv then limit - 1 else limit); }
  }

  /** What a call may rely on: the marker and the cursor tell the truth. */
  ghost predicate Truthful(w: World, st: Store, cursor: Option<Cursor>) {
    && (st.marker ==> AllSettled(w, st.kv))
    && (BlockersOf(cursor) == 0 ==> SettledUpTo(w, st.kv, PosOf(cursor)))
  }

  lemma BatchSettles(w: World, st: Store, cursor: Option<Cursor>, size: int, s: Work)
    requires SealOpens(w) && WritersV3(w) && Truthful(w, st, cursor) && 1 <= size
    requires s == KeysDone(w, StartOf(st, cursor), Names(w.keys, st.kv, PosOf(cursor), size))
    ensures st.marker ==> AllSettled(w, s.kv)
    ensures s.tally.blockers == 0 ==> SettledUpTo(w, s.kv, Stop(w.keys, st.kv, PosOf(cursor), size))
    ensures s.tally.blockers == 0 && ListKv(w.keys, st.kv, PosOf(cursor), size).next.None? ==> AllSettled(w, s.kv)
  {
    var start, pos := StartOf(st, cursor), PosOf(cursor);
    var names, stop := Names(w.keys, st.kv, pos, size), Stop(w.keys, st.kv, pos, size);
    forall k | k in w.keys ensures Settled(w, st.kv, k) ==> Settled(w, s.kv, k) {
      KeysSettle(w, start, names, k);
    }
    KeysSettle(w, start, names, "");
    if s.tally.blockers == 0 {
      forall i | 0 <= i < |w.keys| && i < stop ensures Settled(w, s.kv, w.keys[i]) {
        KeysSettle(w, start, names, w.keys[i]);
        if pos <= i && w.keys[i] in st.kv { PageCovers(w.keys, st.kv, pos, size, i); }
      }
      if Names(w.keys, st.kv, stop, 1) == [] {
        EmptyList(w.keys, st.kv, stop, 1);
        forall k | k in w.keys ensures Settled(w, s.kv, k) {
          var i :| 0 <= i < |w.keys| && w.keys[i] == k;
          if i >= stop { assert Settled(w, st.kv, w.keys[i]); }
        }
      }
    }
  }

  lemma BatchTruthful(w: World, st: Store, cursor: Option<Cursor>, size: int)
    requires SealOpens(w) && WritersV3(w) && Truthful(w, st, cursor)
    ensures var (next, r) := BatchOf(w, st, cursor, size);
            && (next.marker ==> AllSettled(w, next.kv))
            && (r.Err? ==> Truthful(w, next, cursor))
            && (r.Ok? && !r.value.done ==> Truthful(w, next, r.value.cursor))
  {
    if 1 <= size <= 100 && !(cursor.None? && st.marker) {
      BatchSettles(w, st, cursor, size, KeysDone(w, StartOf(st, cursor), Names(w.keys, st.kv, PosOf(cursor), size)));
    }
  }

  /**
   The marker never lies: if other writers write v3 only, then after any chain of batches - pages, conflicts and
   deletions included - a set marker means that every connection is a v3 envelope.
   */
  lemma {:induction false} MarkerIsTrue(w: World, st: Store, cursor: Option<Cursor>, sizes: seq<int>)
    requires SealOpens(w) && WritersV3(w) && Truthful(w, st, cursor)
    ensures Chain(w, st, cursor, sizes).marker ==> AllSettled(w, Chain(w, st, cursor, sizes).kv)
    decreases |sizes|
  {
    if sizes != [] {
      BatchTruthful(w, st, cursor, sizes[0]);
      var (next, r) := BatchOf(w, st, cursor, sizes[0]);
      if r.Err? {
        MarkerIsTrue(w, next, cursor, sizes[1..]);
      } else if !r.value.done {
        MarkerIsTrue(w, next, r.value.cursor, sizes[1..]);
      }
    }
  }

  // ---- without other writers ----

  ghost predicate Quiet(w: World) {
    forall id :: w.before(id) == map[] && w.during(id) == map[] && w.late(id) == map[]
  }

  predicate Opens(w: World, kv: map<Id, Envelope>, k: Id) {
    k in kv ==> w.open(kv[k]).Some?
  }

  ghost predicate AllOpen(w: World, kv: map<Id, Envelope>) {
    forall k :: k in w.keys ==> Opens(w, kv, k)
  }

  ghost predicate OpenUpTo(w: World, kv: map<Id, Envelope>, pos: nat) {
    forall i :: 0 <= i < |w.keys| && i < pos ==> Opens(w, kv, w.keys[i])
  }

  /** Alone, a key is blocked exactly when it does not open, and no key starts or stops opening. */
  lemma QuietKey(w: World, s: Work, id: Id, k: Id)
    requires SealOpens(w) && Quiet(w)
    ensures Opens(w, KeyDone(w, s, id).kv, k) <==> Opens(w, s.kv, k)
    ensures KeyDone(w, s, id).tally.blockers == s.tally.blockers + if Opens(w, s.kv, id) then 0 else 1
    ensures KeyDone(w, s, id).kv.Keys == s.kv.Keys
  {
    assert Edited(s.kv, map[]) == s.kv;
  }

  lemma {:induction false} QuietKeys(w: World, s: Work, names: seq<Id>, k: Id)
    requires SealOpens(w) && Quiet(w)
    ensures Opens(w, KeysDone(w, s, names).kv, k) <==> Opens(w, s.kv, k)
    ensures s.tally.blockers <= KeysDone(w, s, names).tally.blockers
    ensures k in names && !Opens(w, s.kv, k) ==> s.tally.blockers < KeysDone(w, s, names).tally.blockers
    decreases |names|
  {
    if names != [] {
      var n := |names| - 1;
      QuietKeys(w, s, names[..n], k);
      QuietKey(w, KeysDone(w, s, names[..n]), names[n], k);
      assert names == names[..n] + [names[n]];
    }
  }

  lemma {:induction false} QuietUnblocked(w: World, s: Work, names: seq<Id>)
    requires SealOpens(w) && Quiet(w) && forall k :: k in names ==> Opens(w, s.kv, k)
    ensures KeysDone(w, s, names).tally.blockers == s.tally.blockers
    decreases |names|
  {
    if names != [] {
      var n := |names| - 1;
      assert names == names[..n] + [names[n]];
      QuietUnblocked(w, s, names[..n]);
      QuietKeys(w, s, names[..n], names[n]);
      QuietKey(w, KeysDone(w, s, names[..n]), names[n], names[n]);
    }
  }

  ghost predicate CountsBlockers(w: World, kv: map<Id, Envelope>, cursor: Option<Cursor>) {
    BlockersOf(cursor) == 0 <==> OpenUpTo(w, kv, PosOf(cursor))
  }

  lemma QuietBatch(w: World, st: Store, cursor: Option<Cursor>, size: int, s: Work)
    requires SealOpens(w) && Quiet(w) && CountsBlockers(w, st.kv, cursor) && 1 <= size
    requires s == KeysDone(w, StartOf(st, cursor), Names(w.keys, st.kv, PosOf(cursor), size))
    ensures forall k :: k in w.keys ==> (Opens(w, s.kv, k) <==> Opens(w, st.kv, k))
    ensures s.tally.blockers == 0 <==> OpenUpTo(w, s.kv, Stop(w.keys, st.kv, PosOf(cursor), size))
  {
    var start, pos := StartOf(st, cursor), PosOf(cursor);
    var names, stop := Names(w.keys, st.kv, pos, size), Stop(w.keys, st.kv, pos, size);
    forall k ensures Opens(w, s.kv, k) <==> Opens(w, st.kv, k) {
      QuietKeys(w, start, names, k);
    }
    StopAdvances(w.keys, st.kv, pos, size);
    if s.tally.blockers == 0 {
      QuietKeys(w, start, names, "");
      forall i | 0 <= i < |w.keys| && i < stop ensures Opens(w, s.kv, w.keys[i]) {
        QuietKeys(w, start, names, w.keys[i]);
        if pos <= i && w.keys[i] in st.kv { PageCovers(w.keys, st.kv, pos, size, i); }
      }
    }
    if OpenUpTo(w, s.kv, stop) {
      NamesBefore(w.keys, st.kv, pos, size);
      assert OpenUpTo(w, st.kv, pos);
      QuietUnblocked(w, start, names);
    }
  }

  lemma {:induction false} NamesBefore(keys: seq<Id>, kv: map<Id, Envelope>, pos: nat, limit: nat)
    ensures forall k :: k in Names(keys, kv, pos, limit) ==>
              exists i :: pos <= i < |keys| && i < Stop(keys, kv, pos, limit) && keys[i] == k
    decreases |keys| - pos
  {
    if limit != 0 && pos < |keys| {
      var left := if keys[pos] in kv then limit - 1 else limit;
      NamesBefore(keys, kv, pos + 1, left);
      StopAdvances(keys, kv, pos + 1, left);
    }
  }

  /** Whether the chain comes to a call that is done. */
  predicate Ends(w: World, st: Store, cursor: Option<Cursor>, sizes: seq<int>)
    decreases |sizes|
  {
    sizes != [] &&
    match BatchOf(w, st, cursor, sizes[0])
    case (next, Ok(batch)) => batch.done || Ends(w, next, batch.cursor, sizes[1..])
    case (next, Err(_)) => Ends(w, next, cursor, sizes[1..])
  }

  /** What is known between two calls of a chain that has not set the marker. */
  ghost predicate Between(w: World, st: Store, cursor: Option<Cursor>) {
    !st.marker && CountsBlockers(w, st.kv, cursor)
  }

  lemma QuietStep(w: World, st: Store, cursor: Option<Cursor>, size: int)
    requires SealOpens(w) && Quiet(w) && Between(w, st, cursor)
    ensures var (next, r) := BatchOf(w, st, cursor, size);
            && (AllOpen(w, next.kv) <==> AllOpen(w, st.kv))
            && (r.Err? ==> Between(w, next, cursor))
            && (r.Ok? && !r.value.done ==> Between(w, next, r.value.cursor))
            && (r.Ok? && r.value.done ==> (next.marker <==> AllOpen(w, st.kv)))
  {
    if 1 <= size <= 100 {
      var pos := PosOf(cursor);
      var s := KeysDone(w, StartOf(st, cursor), Names(w.keys, st.kv, pos, size));
      QuietBatch(w, st, cursor, size, s);
      var stop := Stop(w.keys, st.kv, pos, size);
      if Names(w.keys, st.kv, stop, 1) == [] {
        EmptyList(w.keys, st.kv, stop, 1);
        OpenToTheEnd(w, st.kv, s.kv, stop);
      }
    }
  }

  lemma OpenToTheEnd(w: World, before: map<Id, Envelope>, after: map<Id, Envelope>, stop: nat)
    requires forall k :: k in w.keys ==> (Opens(w, after, k) <==> Opens(w, before, k))
    requires forall i :: stop <= i < |w.keys| ==> w.keys[i] !in before
    ensures OpenUpTo(w, after, stop) <==> AllOpen(w, before)
  {
    if OpenUpTo(w, after, stop) {
      forall k | k in w.keys ensures Opens(w, before, k) {
        var i :| 0 <= i < |w.keys| && w.keys[i] == k;
        if i < stop { assert Opens(w, after, w.keys[i]); }
      }
    }
  }

  /** Alone, a finished chain sets the marker exactly when every envelope opens: one that does not blocks it across pages. */
  lemma {:induction false} MarkerExactly(w: World, st: Store, cursor: Option<Cursor>, sizes: seq<int>)
    requires SealOpens(w) && Quiet(w) && Between(w, st, cursor)
    requires Ends(w, st, cursor, sizes)
    ensures Chain(w, st, cursor, sizes).marker <==> AllOpen(w, st.kv)
    decreases |sizes|
  {
    QuietStep(w, st, cursor, sizes[0]);
    var (next, r) := BatchOf(w, st, cursor, sizes[0]);
    if r.Err? {
      MarkerExactly(w, next, cursor, sizes[1..]);
    } else if !r.value.done {
      MarkerExactly(w, next, r.value.cursor, sizes[1..]);
    }
  }

  // ---- every envelope that opens is migrated ----

  /** If the key's envelope opens, it is v3. */
  predicate Migrated(w: World, kv: map<Id, Envelope>, k: Id) {
    k in kv && w.open(kv[k]).Some? ==> IsV3(w, kv[k])
  }

  ghost predicate MigratedUpTo(w: World, kv: map<Id, Envelope>, pos: nat) {
    forall i :: 0 <= i < |w.keys| && i < pos ==> Migrated(w, kv, w.keys[i])
  }

  lemma QuietKeyMigrates(w: World, s: Work, id: Id, k: Id)
    requires SealOpens(w) && Quiet(w)
    ensures KeyDone(w, s, id).kv.Keys == s.kv.Keys
    ensures Migrated(w, s.kv, k) || k == id ==> Migrated(w, KeyDone(w, s, id).kv, k)
  {
    assert Edited(s.kv, map[]) == s.kv;
  }

  lemma {:induction false} QuietKeysMigrate(w: World, s: Work, names: seq<Id>, k: Id)
    requires SealOpens(w) && Quiet(w)
    ensures KeysDone(w, s, names).kv.Keys == s.kv.Keys
    ensures Migrated(w, s.kv, k) || k in names ==> Migrated(w, KeysDone(w, s, names).kv, k)
    decreases |names|
  {
    if names != [] {
      var n := |names| - 1;
      QuietKeysMigrate(w, s, names[..n], k);
      QuietKeyMigrates(w, KeysDone(w, s, names[..n]), names[n], k);
      assert names == names[..n] + [names[n]];
    }
  }

  lemma QuietBatchMigrates(w: World, st: Store, cursor: Option<Cursor>, size: int)
    requires SealOpens(w) && Quiet(w) && 1 <= size <= 100 && !(cursor.None? && st.marker)
    requires MigratedUpTo(w, st.kv, PosOf(cursor))
    ensures var (next, r) := BatchOf(w, st, cursor, size);
            MigratedUpTo(w, next.kv, if r.value.done then |w.keys| else PosOf(r.value.cursor))
  {
    var pos := PosOf(cursor);
    var names, stop := Names(w.keys, st.kv, pos, size), Stop(w.keys, st.kv, pos, size);
    var s := KeysDone(w, StartOf(st, cursor), names);
    if Names(w.keys, st.kv, stop, 1) == [] { EmptyList(w.keys, st.kv, stop, 1); }
    forall i | 0 <= i < |w.keys| && (i < stop || Names(w.keys, st.kv, stop, 1) == [])
      ensures Migrated(w, s.kv, w.keys[i])
    {
      QuietKeysMigrate(w, StartOf(st, cursor), names, w.keys[i]);
      if pos <= i < stop && w.keys[i] in st.kv { PageCovers(w.keys, st.kv, pos, size, i); }
    }
  }

  /** Alone, a finished chain has turned every envelope that opens into a v3 one, other keys on other pages notwithstanding. */
  lemma {:induction false} ChainMigratesAll(w: World, st: Store, cursor: Option<Cursor>, sizes: seq<int>)
    requires SealOpens(w) && Quiet(w) && !st.marker && MigratedUpTo(w, st.kv, PosOf(cursor))
    requires Ends(w, st, cursor, sizes)
    ensures MigratedUpTo(w, Chain(w, st, cursor, sizes).kv, |w.keys|)
    decreases |sizes|
  {
    var (next, r) := BatchOf(w, st, cursor, sizes[0]);
    if r.Err? {
      ChainMigratesAll(w, next, cursor, sizes[1..]);
    } else {
      QuietBatchMigrates(w, st, cursor, sizes[0]);
      if !r.value.done { ChainMigratesAll(w, next, r.value.cursor, sizes[1..]); }
    }
  }

  /** The chain ends: every call that is not done moves the cursor on, whatever other writers do. */
  lemma {:induction false} ChainEnds(w: World, st: Store, cursor: Option<Cursor>, sizes: seq<int>)
    requires forall i :: 0 <= i < |sizes| ==> 1 <= sizes[i] <= 100
    requires PosOf(cursor) <= |w.keys| && |sizes| > |w.keys| - PosOf(cursor)
    ensures Ends(w, st, cursor, sizes)
    decreases |sizes|
  {
    var pos := PosOf(cursor);
    var (next, r) := BatchOf(w, st, cursor, sizes[0]);
    StopAdvances(w.keys, st.kv, pos, sizes[0]);
    if !r.value.done { ChainEnds(w, next, r.value.cursor, sizes[1..]); }
  }
}
