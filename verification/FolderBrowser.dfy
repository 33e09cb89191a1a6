/**
 The move dialog of the browser: which folders it offers as targets, and that this
 agrees with the cycle check of the server.
 */
module FolderBrowser {
  import opened Common
  import opened FolderTables
  import opened FolderPaths
  import opened FolderMoves
  import opened FolderStore

  datatype FolderView = FolderView(id: Id, parentId: Option<Id>, name: string)

  datatype MoveTarget = MoveTarget(id: Option<Id>, name: string)

  ghost predicate Links(views: seq<FolderView>, child: Id, parent: Id) {
    exists v :: v in views && v.id == child && v.parentId == Some(parent)
  }

  /** p climbs from x to the root, one listed folder per step. The list may be in any order, and incomplete. */
  ghost predicate Climbs(views: seq<FolderView>, x: Id, root: Id, p: seq<Id>) {
    && p != [] && p[0] == x && p[|p| - 1] == root
    && forall i :: 0 <= i < |p| - 1 ==> Links(views, p[i], p[i + 1])
  }

  /** x is the root or lies below it, according to the list. */
  ghost predicate Reaches(views: seq<FolderView>, x: Id, root: Id) {
    exists p :: Climbs(views, x, root, p)
  }

  lemma ReachesSelf(views: seq<FolderView>, root: Id)
    ensures Reaches(views, root, root)
  {
    assert Climbs(views, root, root, [root]);
  }

  lemma ReachesStep(views: seq<FolderView>, x: Id, parent: Id, root: Id)
    requires Links(views, x, parent) && Reaches(views, parent, root)
    ensures Reaches(views, x, root)
  {
    var p :| Climbs(views, parent, root, p);
    assert Climbs(views, x, root, [x] + p);
  }

  /** Adding any child of a member adds nothing. */
  ghost predicate ClosedUnder(views: seq<FolderView>, d: set<Id>) {
    forall v :: v in views && v.parentId.Some? && v.parentId.value in d ==> v.id in d
  }

  lemma {:induction false} ClosedHoldsAll(views: seq<FolderView>, d: set<Id>, root: Id, x: Id, p: seq<Id>)
    requires root in d && ClosedUnder(views, d) && Climbs(views, x, root, p)
    ensures x in d
    decreases |p|
  {
    if |p| > 1 {
      assert Links(views, p[0], p[1]);
      var q := p[1..];
      assert forall i :: 0 <= i < |q| - 1 ==> Links(views, q[i], q[i + 1]);
      ClosedHoldsAll(views, d, root, p[1], p[1..]);
    }
  }

  /** The fixpoint loop: it stops with exactly the folders that reach the root, whatever the order of the list. */
  method DescendantIds(views: seq<FolderView>, root: Id) returns (d: set<Id>)
    ensures forall x :: x in d <==> Reaches(views, x, root)
  {
    d := {root};
    ghost var listed := set v | v in views :: v.id;
    var changed := true;
    ReachesSelf(views, root);
    while changed
      invariant root in d
      invariant forall x :: x in d ==> Reaches(views, x, root)
      invariant !changed ==> ClosedUnder(views, d)
      decreases |listed - d|, changed
    {
      changed := false;
      ghost var before := d;
      for i := 0 to |views|
        invariant before <= d && root in d
        invariant forall x :: x in d ==> Reaches(views, x, root)
        invariant !changed ==> d == before
        invariant changed ==> listed - d < listed - before
        invariant !changed ==>
                    forall v :: v in views[..i] && v.parentId.Some? && v.parentId.value in d ==> v.id in d
      {
        var folder := views[i];
        if folder.parentId.Some? && folder.parentId.value in d && folder.id !in d {
          assert Links(views, folder.id, folder.parentId.value);
          ReachesStep(views, folder.id, folder.parentId.value, root);
          assert folder.id in listed - d;
          d := d + {folder.id};
          changed := true;
        }
        assert views[..i + 1] == views[..i] + [folder];
      }
      assert views[..|views|] == views;
      if changed { Shrinks(listed - d, listed - before); }
    }
    forall x | Reaches(views, x, root) ensures x in d {
      var p :| Climbs(views, x, root, p);
      ClosedHoldsAll(views, d, root, x, p);
    }
  }

  lemma Shrinks(a: set<Id>, b: set<Id>)
    requires a < b
    ensures |a| < |b|
  {
    assert b == a + (b - a);
  }

  // ---- the offered targets, in order ----

  /** The collation compares any two names, consistently. */
  ghost predicate Ordering(leq: (string, string) -> bool) {
    && (forall a, b :: leq(a, b) || leq(b, a))
    && (forall a, b, c :: leq(a, b) && leq(b, c) ==> leq(a, c))
  }

  function Insert(t: MoveTarget, sorted: seq<MoveTarget>, leq: (string, string) -> bool): seq<MoveTarget> {
    if sorted != [] && leq(sorted[0].name, t.name) then [sorted[0]] + Insert(t, sorted[1..], leq) else [t] + sorted
  }

  /** `sort`, which is stable. */
  function SortByName(ts: seq<MoveTarget>, leq: (string, string) -> bool): seq<MoveTarget> {
    if ts == [] then [] else Insert(ts[|ts| - 1], SortByName(ts[..|ts| - 1], leq), leq)
  }

  ghost predicate InOrder(ts: seq<MoveTarget>, leq: (string, string) -> bool) {
    forall i, j :: 0 <= i < j < |ts| ==> leq(ts[i].name, ts[j].name)
  }

  predicate Alike(a: string, b: string, leq: (string, string) -> bool) {
    leq(a, b) && leq(b, a)
  }

  /** The targets whose names the collation does not tell from this one, in their order. */
  function Same(ts: seq<MoveTarget>, name: string, leq: (string, string) -> bool): seq<MoveTarget> {
    if ts == [] then []
    else (if Alike(ts[0].name, name, leq) then [ts[0]] else []) + Same(ts[1..], name, leq)
  }

  lemma {:induction false} SameOneMore(ts: seq<MoveTarget>, t: MoveTarget, name: string, leq: (string, string) -> bool)
    ensures Same(ts + [t], name, leq) == Same(ts, name, leq) + (if Alike(t.name, name, leq) then [t] else [])
    decreases |ts|
  {
    if ts != [] {
      assert (ts + [t])[1..] == ts[1..] + [t];
      SameOneMore(ts[1..], t, name, leq);
    }
  }

  lemma {:induction false} InSame(ts: seq<MoveTarget>, t: MoveTarget, leq: (string, string) -> bool)
    requires Ordering(leq)
    ensures t in ts <==> t in Same(ts, t.name, leq)
    decreases |ts|
  {
    if ts != [] {
      InSame(ts[1..], t, leq);
      assert ts == [ts[0]] + ts[1..];
    }
  }

  lemma {:induction false} NoneSame(ts: seq<MoveTarget>, name: string, leq: (string, string) -> bool)
    requires forall t :: t in ts ==> !Alike(t.name, name, leq)
    ensures Same(ts, name, leq) == []
    decreases |ts|
  {
    if ts != [] { NoneSame(ts[1..], name, leq); }
  }

  lemma {:induction false} InsertInOrder(t: MoveTarget, ts: seq<MoveTarget>, leq: (string, string) -> bool)
    requires Ordering(leq) && InOrder(ts, leq)
    ensures InOrder(Insert(t, ts, leq), leq)
    ensures forall x :: x in Insert(t, ts, leq) <==> x == t || x in ts
    decreases |ts|
  {
    if ts != [] {
      assert ts == [ts[0]] + ts[1..];
      if leq(ts[0].name, t.name) {
        InsertInOrder(t, ts[1..], leq);
        forall x | x in Insert(t, ts[1..], leq) ensures leq(ts[0].name, x.name) {}
      } else {
        forall x | x in ts ensures leq(t.name, x.name) {
          var i :| 0 <= i < |ts| && ts[i] == x;
          assert leq(ts[0].name, x.name) || i == 0;
        }
      }
    }
  }

  lemma {:induction false} InsertLast(t: MoveTarget, ts: seq<MoveTarget>, name: string, leq: (string, string) -> bool)
    requires Ordering(leq) && InOrder(ts, leq)
    ensures Same(Insert(t, ts, leq), name, leq) == Same(ts + [t], name, leq)
    decreases |ts|
  {
    SameOneMore(ts, t, name, leq);
    if ts != [] && leq(ts[0].name, t.name) {
      InsertLast(t, ts[1..], name, leq);
      SameOneMore(ts[1..], t, name, leq);
    } else {
      assert ([t] + ts)[1..] == ts;
      if ts != [] && Alike(t.name, name, leq) {
        forall x | x in ts ensures !Alike(x.name, name, leq) {
          var i :| 0 <= i < |ts| && ts[i] == x;
          assert i == 0 || leq(ts[0].name, ts[i].name);
        }
        NoneSame(ts, name, leq);
      }
    }
  }

  /** The sort is in order by name, and targets with like names keep the order they had: nothing is lost or added. */
  lemma {:induction false} SortIsStable(ts: seq<MoveTarget>, name: string, leq: (string, string) -> bool)
    requires Ordering(leq)
    ensures InOrder(SortByName(ts, leq), leq)
    ensures Same(SortByName(ts, leq), name, leq) == Same(ts, name, leq)
    decreases |ts|
  {
    if ts != [] {
      var before, t := ts[..|ts| - 1], ts[|ts| - 1];
      SortIsStable(before, name, leq);
      assert ts == before + [t];
      InsertInOrder(t, SortByName(before, leq), leq);
      InsertLast(t, SortByName(before, leq), name, leq);
      SameOneMore(before, t, name, leq);
      SameOneMore(SortByName(before, leq), t, name, leq);
    }
  }

  /** The sort for all names at once: in order, the same targets, like names as they stood. */
  lemma SortKeeps(ts: seq<MoveTarget>, leq: (string, string) -> bool)
    requires Ordering(leq)
    ensures InOrder(SortByName(ts, leq), leq)
    ensures forall name :: Same(SortByName(ts, leq), name, leq) == Same(ts, name, leq)
    ensures forall t :: t in SortByName(ts, leq) <==> t in ts
  {
    var sorted := SortByName(ts, leq);
    SortIsStable(ts, "", leq);
    forall name ensures Same(sorted, name, leq) == Same(ts, name, leq) { SortIsStable(ts, name, leq); }
    forall t ensures t in sorted <==> t in ts {
      InSame(sorted, t, leq);
      InSame(ts, t, leq);
      SortIsStable(ts, t.name, leq);
    }
  }

  /** Whether a listed folder stays in the dialog: nothing is being moved, or it is not in the moved subtree. */
  ghost predicate Shown(views: seq<FolderView>, moving: Option<Id>, id: Id) {
    moving == None || moving == Some("") || !Reaches(views, id, moving.value)
  }

  /** The targets for the shown folders, in the order of the list. */
  ghost function Offered(views: seq<FolderView>, moving: Option<Id>, listed: seq<FolderView>): seq<MoveTarget> {
    if listed == [] then []
    else
      var v := listed[|listed| - 1];
      Offered(views, moving, listed[..|listed| - 1])
      + (if Shown(views, moving, v.id) then [MoveTarget(Some(v.id), v.name)] else [])
  }

  method Excluded(views: seq<FolderView>, moving: Option<Id>) returns (excluded: set<Id>)
    ensures forall v :: v in views ==> (v.id in excluded <==> !Shown(views, moving, v.id))
  {
    excluded := {};
    if moving.Some? && moving.value != "" { excluded := DescendantIds(views, moving.value); }
  }

  /** filter and map. */
  method Kept(views: seq<FolderView>, moving: Option<Id>, excluded: set<Id>) returns (kept: seq<MoveTarget>)
    requires forall v :: v in views ==> (v.id in excluded <==> !Shown(views, moving, v.id))
    ensures kept == Offered(views, moving, views)
  {
    kept := [];
    for i := 0 to |views|
      invariant kept == Offered(views, moving, views[..i])
    {
      assert views[..i + 1][..i] == views[..i];
      assert views[i] in views;
      if views[i].id !in excluded {
        kept := kept + [MoveTarget(Some(views[i].id), views[i].name)];
      }
    }
    assert views[..|views|] == views;
  }

  /**
   The targets offered for a folder: the root first, then exactly the shown folders in order by name, folders with
   like names in the order of the list.
   */
  method FolderMoveTargets(views: seq<FolderView>, moving: Option<Id>, leq: (string, string) -> bool)
    returns (targets: seq<MoveTarget>)
    requires Ordering(leq)
    ensures targets != [] && targets[0] == MoveTarget(None, "未分類")
    ensures InOrder(targets[1..], leq)
    ensures forall name :: Same(targets[1..], name, leq) == Same(Offered(views, moving, views), name, leq)
    ensures forall t :: t in targets[1..] <==> t in Offered(views, moving, views)
  {
    var excluded := Excluded(views, moving);
    var kept := Kept(views, moving, excluded);
    SortKeeps(kept, leq);
    targets := [MoveTarget(None, "未分類")] + SortByName(kept, leq);
    assert targets[1..] == SortByName(kept, leq);
  }

  // ---- agreement with the server ----

  /** The list is what listFolders returns for the table, in any order. */
  ghost predicate Lists(views: seq<FolderView>, f: Folders) {
    && (forall v :: v in views ==> v.id in f && f[v.id].parent == v.parentId)
    && (forall x :: x in f ==> exists v :: v in views && v.id == x)
  }

  lemma {:induction false} ClimbIsUnder(views: seq<FolderView>, f: Folders, x: Id, root: Id, p: seq<Id>)
    requires Forest(f) && Lists(views, f) && x in f && Climbs(views, x, root, p)
    ensures Under(f, root, x)
    decreases |p|
  {
    PathStep(f, x);
    if |p| > 1 {
      assert Links(views, p[0], p[1]);
      var q := p[1..];
      assert forall i :: 0 <= i < |q| - 1 ==> Links(views, q[i], q[i + 1]);
      ClimbIsUnder(views, f, p[1], root, p[1..]);
    }
  }

  lemma {:induction false} UnderReaches(views: seq<FolderView>, f: Folders, x: Id, root: Id, n: nat)
    requires Forest(f) && Lists(views, f) && x in f && Under(f, root, x) && n == Depth(f, x)
    ensures Reaches(views, x, root)
    decreases n
  {
    PathStep(f, x);
    if x == root {
      ReachesSelf(views, root);
    } else {
      PathOf(f, f[x].parent);
      var up := f[x].parent.value;
      UnderReaches(views, f, up, root, n - 1);
      var v :| v in views && v.id == x;
      assert Links(views, x, up);
      ReachesStep(views, x, up, root);
    }
  }

  /** A folder is left out of the dialog exactly when the server's cycle check would refuse it. */
  lemma DialogAgreesWithServer(views: seq<FolderView>, f: Folders, moving: Id, target: Id)
    requires Forest(f) && Lists(views, f) && moving in f && target in f
    ensures Reaches(views, target, moving) <==> MoveOutcome(f, moving, Some(target)) == Err(FolderCycle)
  {
    NotAboveSelf(f, moving);
    if Under(f, moving, target) {
      UnderReaches(views, f, target, moving, Depth(f, target));
    }
    if Reaches(views, target, moving) {
      var p :| Climbs(views, target, moving, p);
      ClimbIsUnder(views, f, target, moving, p);
    }
  }
}
