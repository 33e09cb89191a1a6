/**
 Re-encrypting the stored connections as v3 envelopes, batch by batch, while other
 writers may create, change and delete connections between any two reads of a key.

 `shadow` is the store as it would be without the migration: it sees the other writers'
 changes only.
 */
module LegacyMigration {
  import opened Common
  import opened KvPaging

  /** What other writers put or delete at some moment. */
  type Edits = map<Id, Option<Envelope>>

  /**
   The ids of all connections in listing order, how envelopes open and are sealed, and what other
   writers do just before a key is read, while its replacement is being made, and between the second
   read of the key and the put.
   */
  datatype World = World(
    keys: seq<Id>, open: Envelope -> Option<Opened>, seal: string -> Envelope,
    before: Id -> Edits, during: Id -> Edits, late: Id -> Edits)

  ghost predicate SealOpens(w: World) {
    forall p :: w.open(w.seal(p)) == Some(Opened(p, V3))
  }

  /** The assumption can be met. */
  lemma SealingExists(keys: seq<Id>, before: Id -> Edits, during: Id -> Edits, late: Id -> Edits) returns (w: World)
    ensures SealOpens(w) && w.keys == keys && w.before == before && w.during == during && w.late == late
  {
    var seal := (p: string) => "v3:" + p;
    var open := (e: string) => if |e| >= 3 && e[..3] == "v3:" then Some(Opened(e[3..], V3)) else None;
    w := World(keys, open, seal, before, during, late);
    forall p ensures w.open(w.seal(p)) == Some(Opened(p, V3)) {
      assert ("v3:" + p)[..3] == "v3:" && ("v3:" + p)[3..] == p;
    }
  }

  datatype Tally = Tally(scanned: nat, migrated: nat, failed: nat, conflicts: nat, blockers: nat)

  datatype Work = Work(kv: map<Id, Envelope>, shadow: map<Id, Envelope>, tally: Tally)

  function Edited(kv: map<Id, Envelope>, e: Edits): map<Id, Envelope> {
    map k | k in kv.Keys + e.Keys && (k in e ==> e[k].Some?) :: if k in e then e[k].value else kv[k]
  }

  function Outside(s: Work, e: Edits): Work {
    s.(kv := Edited(s.kv, e), shadow := Edited(s.shadow, e))
  }

  predicate IsV3(w: World, e: Envelope) {
    w.open(e).Some? && w.open(e).value.version == V3
  }

  /** The put, which is unconditional: whatever the key has become by then is overwritten. */
  function Put(w: World, s: Work, id: Id, plaintext: string): Work {
    var a := Outside(s, w.late(id));
    a.(kv := a.kv[id := w.seal(plaintext)], tally := a.tally.(migrated := a.tally.migrated + 1))
  }

  /** The second read of a key, and the put when nothing has changed since the first. */
  function Replaced(w: World, s: Work, id: Id, raw: Envelope, plaintext: string): Work {
    var t := s.tally;
    if id in s.kv && s.kv[id] == raw then Put(w, s, id, plaintext)
    else
      var blocks := id in s.kv && !IsV3(w, s.kv[id]);
      s.(tally := t.(conflicts := t.conflicts + 1, blockers := t.blockers + if blocks then 1 else 0))
  }

  /** One key of the page. */
  function KeyDone(w: World, s: Work, id: Id): Work {
    var a := Outside(s, w.before(id)).(tally := s.tally.(scanned := s.tally.scanned + 1));
    if id !in a.kv then a
    else
      var raw := a.kv[id];
      match w.open(raw)
      case None => a.(tally := a.tally.(failed := a.tally.failed + 1, blockers := a.tally.blockers + 1))
      case Some(o) => if o.version == V3 then a else Replaced(w, Outside(a, w.during(id)), id, raw, o.plaintext)
  }

  function KeysDone(w: World, s: Work, names: seq<Id>): Work {
    if names == [] then s else KeyDone(w, KeysDone(w, s, names[..|names| - 1]), names[|names| - 1])
  }

  datatype Cursor = Cursor(pos: nat, blockers: nat)

  datatype Store = Store(kv: map<Id, Envelope>, shadow: map<Id, Envelope>, marker: bool)

  datatype Batch = Batch(done: bool, cursor: Option<Cursor>, tally: Tally)

  datatype BatchError = InvalidBatchSize

  function BlockersOf(cursor: Option<Cursor>): nat {
    if cursor.Some? then cursor.value.blockers else 0
  }

  function PosOf(cursor: Option<Cursor>): nat {
    if cursor.Some? then cursor.value.pos else 0
  }

  function StartOf(st: Store, cursor: Option<Cursor>): Work {
    Work(st.kv, st.shadow, Tally(0, 0, 0, 0, BlockersOf(cursor)))
  }

  const NOTHING: Tally := Tally(0, 0, 0, 0, 0)

  /** One call of migrateLegacyBatch. */
  function BatchOf(w: World, st: Store, cursor: Option<Cursor>, size: int): (Store, Result<Batch, BatchError>) {
    if size < 1 || size > 100 then (st, Err(InvalidBatchSize))
    else if cursor.None? && st.marker then (st, Ok(Batch(true, None, NOTHING)))
    else
      var page := ListKv(w.keys, st.kv, PosOf(cursor), size);
      var s := KeysDone(w, StartOf(st, cursor), page.names);
      if page.next.None? then
        (Store(s.kv, s.shadow, st.marker || s.tally.blockers == 0), Ok(Batch(true, None, s.tally)))
      else
        (Store(s.kv, s.shadow, st.marker), Ok(Batch(false, Some(Cursor(page.next.value, s.tally.blockers)), s.tally)))
  }

  /** Calls that pass the returned cursor back, until one is done; the sizes are the caller's. */
  function Chain(w: World, st: Store, cursor: Option<Cursor>, sizes: seq<int>): Store
    decreases |sizes|
  {
    if sizes == [] then st
    else
      match BatchOf(w, st, cursor, sizes[0])
      case (next, Ok(batch)) => if batch.done then next else Chain(w, next, batch.cursor, sizes[1..])
      case (next, Err(_)) => Chain(w, next, cursor, sizes[1..])
  }

  // ---- the object ----

  class ConnectionStore {
    const world: World
    var kv: map<Id, Envelope>
    var marker: bool
    ghost var shadow: map<Id, Envelope>

    constructor (world: World, kv: map<Id, Envelope>)
      ensures this.world == world && State() == Store(kv, kv, false)
    {
      this.world, this.kv, this.shadow, marker := world, kv, kv, false;
    }

    ghost function State(): Store
      reads this
    {
      Store(kv, shadow, marker)
    }

    /** Other writers. */
    method Meanwhile(e: Edits)
      modifies this`kv, this`shadow
      ensures kv == Edited(old(kv), e) && shadow == Edited(old(shadow), e)
    {
      kv, shadow := Edited(kv, e), Edited(shadow, e);
    }

    /** The body of the loop over the keys of a page. */
    method MigrateKey(id: Id, t: Tally) returns (r: Tally)
      modifies this`kv, this`shadow
      ensures Work(kv, shadow, r) == KeyDone(world, Work(old(kv), old(shadow), t), id)
    {
      r := t.(scanned := t.scanned + 1);
      Meanwhile(world.before(id));
      if id !in kv { return; }
      var raw := kv[id];
      var decrypted := world.open(raw);
      if decrypted.None? {
        r := r.(failed := r.failed + 1, blockers := r.blockers + 1);
        return;
      }
      if decrypted.value.version == V3 { return; }
      var replacement := world.seal(decrypted.value.plaintext);
      Meanwhile(world.during(id));
      if id !in kv || kv[id] != raw {
        r := r.(conflicts := r.conflicts + 1);
        if id in kv {
          var current := world.open(kv[id]);
          if current.None? || current.value.version != V3 { r := r.(blockers := r.blockers + 1); }
        }
        return;
      }
      Meanwhile(world.late(id));
      kv := kv[id := replacement];
      r := r.(migrated := r.migrated + 1);
    }

    method MigrateLegacyBatch(cursor: Option<Cursor>, batchSize: int) returns (r: Result<Batch, BatchError>)
      modifies this
      ensures (State(), r) == BatchOf(world, old(State()), cursor, batchSize)
    {
      if batchSize < 1 || batchSize > 100 { return Err(InvalidBatchSize); }
      if cursor.None? && marker { return Ok(Batch(true, None, NOTHING)); }
      var page := ListKv(world.keys, kv, PosOf(cursor), batchSize);
      var names := page.names;
      var t := Tally(0, 0, 0, 0, BlockersOf(cursor));
      ghost var start := Work(kv, shadow, t);
      for i := 0 to |names|
        invariant Work(kv, shadow, t) == KeysDone(world, start, names[..i])
        invariant marker == old(marker)
      {
        assert names[..i + 1][..i] == names[..i];
        t := MigrateKey(names[i], t);
      }
      assert names[..|names|] == names;
      if page.next.None? {
        if t.blockers == 0 { marker := true; }
        return Ok(Batch(true, None, t));
      }
      r := Ok(Batch(false, Some(Cursor(page.next.value, t.blockers)), t));
    }
  }

  // ---- one key, case by case ----

  /**
   What the migration does with a key, by what it reads: an absent key or a v3 envelope is only counted, one that does not
   open is a failure that blocks, and an older one is replaced by its own plaintext sealed again - unless it has changed
   by the second read, which is a conflict that blocks exactly if the key is then there and still not v3.
   */
  lemma KeyCases(w: World, s: Work, id: Id)
    ensures var t, a, u := s.tally, Edited(s.kv, w.before(id)), KeyDone(w, s, id);
            if id !in a || (w.open(a[id]).Some? && w.open(a[id]).value.version == V3) then
              u.kv == a && u.tally == Tally(t.scanned + 1, t.migrated, t.failed, t.conflicts, t.blockers)
            else if w.open(a[id]) == None then
              u.kv == a && u.tally == Tally(t.scanned + 1, t.migrated, t.failed + 1, t.conflicts, t.blockers + 1)
            else
              var b := Edited(a, w.during(id));
              if id in b && b[id] == a[id] then
                && u.kv == Edited(b, w.late(id))[id := w.seal(w.open(a[id]).value.plaintext)]
                && u.tally == Tally(t.scanned + 1, t.migrated + 1, t.failed, t.conflicts, t.blockers)
              else
                && u.kv == b
                && u.tally == Tally(t.scanned + 1, t.migrated, t.failed, t.conflicts + 1,
                                    t.blockers + if id in b && !(w.open(b[id]).Some? && w.open(b[id]).value.version == V3) then 1 else 0)
  {
  }

  /** What others write or delete takes effect as it is, and leaves every other key alone. */
  lemma EditsExactly(kv: map<Id, Envelope>, e: Edits, k: Id)
    ensures k in Edited(kv, e) <==> if k in e then e[k].Some? else k in kv
    ensures k in Edited(kv, e) ==> Edited(kv, e)[k] == if k in e then e[k].value else kv[k]
  {
  }

  /** A size outside 1 to 100 is refused, and with the marker set a chain that starts anew is done at once. */
  lemma BatchRefusals(w: World, st: Store, cursor: Option<Cursor>, size: int)
    ensures !(1 <= size <= 100) <==> BatchOf(w, st, cursor, size) == (st, Err(InvalidBatchSize))
    ensures 1 <= size <= 100 && cursor == None && st.marker ==>
              BatchOf(w, st, cursor, size) == (st, Ok(Batch(true, None, Tally(0, 0, 0, 0, 0))))
  {
  }

  // ---- nothing is lost ----

  /** The migrated value of a key says what the unmigrated one says. */
  predicate SameContent(w: World, x: Envelope, y: Envelope) {
    x == y || (w.open(y).Some? && w.open(x) == Some(Opened(w.open(y).value.plaintext, V3)))
  }

  /** The same keys, with the same contents; what cannot be opened is untouched. */
  ghost predicate Conserved(w: World, kv: map<Id, Envelope>, shadow: map<Id, Envelope>) {
    && kv.Keys == shadow.Keys
    && forall k :: k in kv ==> SameContent(w, kv[k], shadow[k])
  }

  lemma EditedConserved(w: World, kv: map<Id, Envelope>, shadow: map<Id, Envelope>, e: Edits)
    requires Conserved(w, kv, shadow)
    ensures Conserved(w, Edited(kv, e), Edited(shadow, e))
  {
  }

  /** What a late write of the key must be for the put not to undo it: the same content again. */
  predicate LateHarmless(w: World, id: Id, plaintext: string) {
    id in w.late(id) ==>
      w.late(id)[id].Some? && w.open(w.late(id)[id].value).Some?
      && w.open(w.late(id)[id].value).value.plaintext == plaintext
  }

  /** A put conserves the store exactly when no other writer has changed the content of that key since it was read. */
  lemma PutConservesExactly(w: World, s: Work, id: Id, plaintext: string)
    requires SealOpens(w) && Conserved(w, s.kv, s.shadow)
    requires id in s.shadow && w.open(s.shadow[id]).Some? && w.open(s.shadow[id]).value.plaintext == plaintext
    ensures Conserved(w, Put(w, s, id, plaintext).kv, Put(w, s, id, plaintext).shadow) <==> LateHarmless(w, id, plaintext)
  {
    var a, b := Outside(s, w.late(id)), Put(w, s, id, plaintext);
    EditedConserved(w, s.kv, s.shadow, w.late(id));
    assert w.open(w.seal(plaintext)) == Some(Opened(plaintext, V3));
    if LateHarmless(w, id, plaintext) {
      assert SameContent(w, b.kv[id], b.shadow[id]);
      assert b.kv.Keys == b.shadow.Keys;
      assert forall k :: k in b.kv && k != id ==> k in a.kv && b.kv[k] == a.kv[k];
    }
    if Conserved(w, b.kv, b.shadow) {
      assert id in b.kv && SameContent(w, b.kv[id], b.shadow[id]);
    }
  }

  /** Nobody else writes a key between its second read and the put. */
  ghost predicate NoneLate(w: World) {
    forall id :: id !in w.late(id)
  }

  lemma ReplacedConserved(w: World, s: Work, id: Id, raw: Envelope, plaintext: string)
    requires SealOpens(w) && NoneLate(w) && Conserved(w, s.kv, s.shadow)
    requires w.open(raw).Some? && w.open(raw).value.plaintext == plaintext
    ensures Conserved(w, Replaced(w, s, id, raw, plaintext).kv, Replaced(w, s, id, raw, plaintext).shadow)
  {
    if id in s.kv && s.kv[id] == raw { PutConservesExactly(w, s, id, plaintext); }
  }

  lemma KeyConserved(w: World, s: Work, id: Id)
    requires SealOpens(w) && NoneLate(w) && Conserved(w, s.kv, s.shadow)
    ensures Conserved(w, KeyDone(w, s, id).kv, KeyDone(w, s, id).shadow)
  {
    var a := Outside(s, w.before(id));
    EditedConserved(w, s.kv, s.shadow, w.before(id));
    if id in a.kv && w.open(a.kv[id]).Some? {
      var b := Outside(a.(tally := s.tally.(scanned := s.tally.scanned + 1)), w.during(id));
      EditedConserved(w, a.kv, a.shadow, w.during(id));
      ReplacedConserved(w, b, id, a.kv[id], w.open(a.kv[id]).value.plaintext);
    }
  }

  lemma {:induction false} KeysConserved(w: World, s: Work, names: seq<Id>)
    requires SealOpens(w) && NoneLate(w) && Conserved(w, s.kv, s.shadow)
    ensures Conserved(w, KeysDone(w, s, names).kv, KeysDone(w, s, names).shadow)
    decreases |names|
  {
    if names != [] {
      KeysConserved(w, s, names[..|names| - 1]);
      KeyConserved(w, KeysDone(w, s, names[..|names| - 1]), names[|names| - 1]);
    }
  }

  lemma BatchConserved(w: World, st: Store, cursor: Option<Cursor>, size: int)
    requires SealOpens(w) && NoneLate(w) && Conserved(w, st.kv, st.shadow)
    ensures var (next, _) := BatchOf(w, st, cursor, size); Conserved(w, next.kv, next.shadow)
  {
    if 1 <= size <= 100 {
      KeysConserved(w, StartOf(st, cursor), ListKv(w.keys, st.kv, PosOf(cursor), size).names);
    }
  }

  /**
   Any chain of batches, whatever other writers do, but for writes of a key just before its own put: the store has the
   keys and plaintexts it would have without the migration, and values that do not open are left as they are.
   */
  lemma {:induction false} ChainConserves(w: World, st: Store, cursor: Option<Cursor>, sizes: seq<int>)
    requires SealOpens(w) && NoneLate(w) && Conserved(w, st.kv, st.shadow)
    ensures Conserved(w, Chain(w, st, cursor, sizes).kv, Chain(w, st, cursor, sizes).shadow)
    decreases |sizes|
  {
    if sizes != [] {
      BatchConserved(w, st, cursor, sizes[0]);
      var (next, r) := BatchOf(w, st, cursor, sizes[0]);
      ChainConserves(w, next, if r.Ok? then r.value.cursor else cursor, sizes[1..]);
    }
  }

  /** Without that proviso it fails: an update of a key just before its put is overwritten by the old content. */
  lemma LateUpdateIsLost() returns (w: World)
    ensures SealOpens(w)
    ensures var s := KeyDone(w, Work(map["a" := "x"], map["a" := "x"], NOTHING), "a");
            && "a" in s.kv && "a" in s.shadow
            && w.open(s.kv["a"]) == Some(Opened("x", V3)) && w.open(s.shadow["a"]) == Some(Opened("y", V3))
            && s.tally == NOTHING.(scanned := 1, migrated := 1) && !Conserved(w, s.kv, s.shadow)
  {
    var seal := (p: string) => "v3:" + p;
    var open := (e: string) => Some(if |e| >= 3 && e[..3] == "v3:" then Opened(e[3..], V3) else Opened(e, V1));
    w := World(["a"], open, seal, _ => map[], _ => map[], _ => map["a" := Some("v3:y")]);
    forall p ensures w.open(w.seal(p)) == Some(Opened(p, V3)) {
      assert ("v3:" + p)[..3] == "v3:" && ("v3:" + p)[3..] == p;
    }
    var kv := map["a" := "x"];
    assert Edited(kv, map[]) == kv;
    assert Edited(kv, w.late("a")) == map["a" := "v3:y"];
    assert ("v3:" + "x")[..3] == "v3:" && ("v3:" + "x")[3..] == "x";
    assert ("v3:" + "y")[..3] == "v3:" && ("v3:" + "y")[3..] == "y";
  }

  // ---- the tallies ----

  /** What one key adds: it is scanned, and falls into at most one of migrated, failed and conflicts; only the last two block. */
  lemma KeyTallied(w: World, s: Work, id: Id)
    ensures var a, b := s.tally, KeyDone(w, s, id).tally;
            && b.scanned == a.scanned + 1
            && a.migrated <= b.migrated && a.failed <= b.failed && a.conflicts <= b.conflicts
            && b.migrated + b.failed + b.conflicts <= a.migrated + a.failed + a.conflicts + 1
            && b.failed - a.failed <= b.blockers - a.blockers <= b.failed - a.failed + b.conflicts - a.conflicts
  {
  }

  lemma {:induction false} KeysTallied(w: World, s: Work, names: seq<Id>)
    ensures var a, b := s.tally, KeysDone(w, s, names).tally;
            && b.scanned == a.scanned + |names|
            && a.migrated <= b.migrated && a.failed <= b.failed && a.conflicts <= b.conflicts
            && b.migrated + b.failed + b.conflicts <= a.migrated + a.failed + a.conflicts + |names|
            && b.failed - a.failed <= b.blockers - a.blockers <= b.failed - a.failed + b.conflicts - a.conflicts
    decreases |names|
  {
    if names != [] {
      KeysTallied(w, s, names[..|names| - 1]);
      KeyTallied(w, KeysDone(w, s, names[..|names| - 1]), names[|names| - 1]);
    }
  }
}
