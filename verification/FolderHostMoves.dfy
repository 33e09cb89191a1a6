/** Moving a batch of connections: the deltas collected per folder and the statements built from them. */
module FolderHostMoves {
  import opened Common
  import opened FolderTables
  import opened FolderPaths
  import opened FolderCounts

  /** `[...new Set(ids)]`: each id once, in the order of first appearance. */
  function Unique(ids: seq<Id>): seq<Id> {
    if ids == [] then []
    else
      var n := |ids| - 1;
      Unique(ids[..n]) + (if ids[n] in ids[..n] then [] else [ids[n]])
  }

  ghost predicate Distinct(ids: seq<Id>) {
    forall i, j :: 0 <= i < j < |ids| ==> ids[i] != ids[j]
  }

  lemma {:induction false} UniqueIsDistinct(ids: seq<Id>)
    ensures Distinct(Unique(ids))
    ensures forall x :: x in Unique(ids) <==> x in ids
    decreases |ids|
  {
    if ids != [] {
      var n := |ids| - 1;
      UniqueIsDistinct(ids[..n]);
      assert ids == ids[..n] + [ids[n]];
    }
  }

  function Elements(ids: seq<Id>): set<Id> {
    set x | x in ids
  }

  function Get(deltas: map<Id, int>, a: Id): int {
    if a in deltas then deltas[a] else 0
  }

  /** The deltas say how every count differs between two versions of the connections. */
  ghost predicate Describes(f: Folders, c: Connections, d: Connections, deltas: map<Id, int>) {
    && (forall a :: a in deltas ==> a in f)
    && (forall a :: a in f ==> Get(deltas, a) == Hosts(f, d, a) - Hosts(f, c, a))
  }

  lemma MovedOneMore(c: Connections, ids: set<Id>, k: Id, target: Option<Id>)
    ensures Moved(Moved(c, ids, target), {k}, target) == Moved(c, ids + {k}, target)
  {
  }

  lemma NothingMoved(f: Folders, c: Connections, target: Option<Id>)
    ensures Moved(c, {}, target) == c
    ensures Describes(f, c, Moved(c, {}, target), map[])
  {
  }

  lemma ElementsOneMore(ids: seq<Id>, i: nat)
    requires i < |ids|
    ensures Elements(ids[..i + 1]) == Elements(ids[..i]) + {ids[i]}
    ensures Distinct(ids) ==> ids[i] !in Elements(ids[..i])
  {
    assert ids[..i + 1] == ids[..i] + [ids[i]];
  }

  /** One more row of the batch: its old chain counts down, the target chain counts up. */
  lemma DescribesOneMore(f: Folders, c: Connections, ids: set<Id>, k: Id, target: Option<Id>,
                         deltas: map<Id, int>, after: map<Id, int>)
    requires Forest(f) && Linked(f, c) && Exists(f, target)
    requires k in c && k !in ids
    requires Describes(f, c, Moved(c, ids, target), deltas)
    requires forall a :: a in after ==> a in f
    requires forall a :: a in f ==>
               Get(after, a) == Get(deltas, a) - On(a in Path(f, c[k].folder)) + On(a in Path(f, target))
    ensures Describes(f, c, Moved(c, ids + {k}, target), after)
  {
    MovedOneMore(c, ids, k, target);
    forall a | a in f ensures Get(after, a) == Hosts(f, Moved(c, ids + {k}, target), a) - Hosts(f, c, a) {
      HostsMoved(f, Moved(c, ids, target), k, target, a);
    }
  }

  // ---- the statements ----

  function MoveStatements(ids: seq<Id>, c: Connections, target: Option<Id>): seq<Statement>
    requires forall k :: k in ids ==> k in c
  {
    if ids == [] then []
    else
      var n := |ids| - 1;
      MoveStatements(ids[..n], c, target)
      + (if c[ids[n]].folder != target then [SetConnectionFolder(ids[n], target)] else [])
  }

  function DeltaStatements(order: seq<Id>, deltas: map<Id, int>): seq<Statement> {
    if order == [] then []
    else
      var n := |order| - 1;
      DeltaStatements(order[..n], deltas)
      + (if Get(deltas, order[n]) != 0 then [AddToCount(order[n], Get(deltas, order[n]))] else [])
  }

  lemma {:induction false} RunMoves(t: Tables, ids: seq<Id>, target: Option<Id>)
    requires Exists(t.folders, target) && forall k :: k in ids ==> k in t.connections
    ensures RunAll(t, MoveStatements(ids, t.connections, target)) ==
            Ok(t.(connections := Moved(t.connections, Elements(ids), target)))
    decreases |ids|
  {
    var c := t.connections;
    if ids == [] {
      assert Moved(c, Elements(ids), target) == c;
    } else {
      var n := |ids| - 1;
      var k, u := ids[n], t.(connections := Moved(c, Elements(ids[..n]), target));
      assert Elements(ids) == Elements(ids[..n]) + {k} by {
        assert ids == ids[..n] + [k];
      }
      MovedOneMore(c, Elements(ids[..n]), k, target);
      RunMoves(t, ids[..n], target);
      if c[k].folder != target {
        RunOne(u, SetConnectionFolder(k, target));
        RunAllThen(t, MoveStatements(ids[..n], c, target), u, [SetConnectionFolder(k, target)]);
      } else {
        assert Moved(u.connections, {k}, target) == u.connections;
        assert MoveStatements(ids, c, target) == MoveStatements(ids[..n], c, target);
      }
    }
  }

  function Shifted(f: Folders, order: seq<Id>, deltas: map<Id, int>): Folders {
    map x | x in f :: if x in order then f[x].(count := f[x].count + Get(deltas, x)) else f[x]
  }

  function WithShift(t: Tables, order: seq<Id>, deltas: map<Id, int>): Tables {
    t.(folders := Shifted(t.folders, order, deltas))
  }

  lemma ShiftOneMore(t: Tables, before: seq<Id>, x: Id, deltas: map<Id, int>)
    requires x !in before
    ensures Count(WithShift(t, before, deltas), x, Get(deltas, x)) == WithShift(t, before + [x], deltas)
    ensures Get(deltas, x) == 0 ==> WithShift(t, before, deltas) == WithShift(t, before + [x], deltas)
  {
    assert Count(WithShift(t, before, deltas), x, Get(deltas, x)).folders == Shifted(t.folders, before + [x], deltas);
    if Get(deltas, x) == 0 {
      assert Shifted(t.folders, before, deltas) == Shifted(t.folders, before + [x], deltas);
    }
  }

  /** The statement of one folder, after the batch of the folders before it. */
  lemma DeltaOneMore(t: Tables, before: seq<Id>, batch: seq<Statement>, x: Id, deltas: map<Id, int>)
    requires x !in before && RunAll(t, batch) == Ok(WithShift(t, before, deltas))
    ensures RunAll(t, batch + (if Get(deltas, x) != 0 then [AddToCount(x, Get(deltas, x))] else []))
         == Ok(WithShift(t, before + [x], deltas))
  {
    var u, last := WithShift(t, before, deltas), AddToCount(x, Get(deltas, x));
    ShiftOneMore(t, before, x, deltas);
    if Get(deltas, x) != 0 {
      RunOne(u, last);
      RunAllThen(t, batch, u, [last]);
    } else {
      assert batch + [] == batch;
    }
  }

  lemma {:induction false} RunDeltas(t: Tables, order: seq<Id>, deltas: map<Id, int>)
    requires Distinct(order)
    ensures RunAll(t, DeltaStatements(order, deltas)) == Ok(WithShift(t, order, deltas))
    decreases |order|
  {
    if order == [] {
      assert Shifted(t.folders, order, deltas) == t.folders;
    } else {
      var before, x := order[..|order| - 1], order[|order| - 1];
      RunDeltas(t, before, deltas);
      DeltaOneMore(t, before, DeltaStatements(before, deltas), x, deltas);
      assert order == before + [x];
    }
  }

  /** The tables after moving the listed connections. */
  function HostsMovedTo(t: Tables, ids: seq<Id>, target: Option<Id>, order: seq<Id>, deltas: map<Id, int>): Tables {
    Tables(Shifted(t.folders, order, deltas), Moved(t.connections, Elements(ids), target))
  }

  /** The batch of moveConnections never fails and keeps every count, however the deltas cancel. */
  lemma HostMoveKeepsIndex(t: Tables, ids: seq<Id>, target: Option<Id>, order: seq<Id>, deltas: map<Id, int>)
    requires Consistent(t) && Exists(t.folders, target)
    requires forall k :: k in ids ==> k in t.connections
    requires Distinct(order) && forall a :: a in deltas <==> a in order
    requires Describes(t.folders, t.connections, Moved(t.connections, Elements(ids), target), deltas)
    ensures RunAll(t, MoveStatements(ids, t.connections, target) + DeltaStatements(order, deltas)) ==
            Ok(HostsMovedTo(t, ids, target, order, deltas))
    ensures Consistent(HostsMovedTo(t, ids, target, order, deltas))
    ensures SameShape(t.folders, HostsMovedTo(t, ids, target, order, deltas).folders)
  {
    var moves := MoveStatements(ids, t.connections, target);
    var u := t.(connections := Moved(t.connections, Elements(ids), target));
    RunMoves(t, ids, target);
    RunDeltas(u, order, deltas);
    RunAllThen(t, moves, u, DeltaStatements(order, deltas));
    ShiftKeepsIndex(t.folders, t.connections, u.connections, order, deltas);
  }

  lemma ShiftKeepsIndex(f: Folders, c: Connections, d: Connections, order: seq<Id>, deltas: map<Id, int>)
    requires Consistent(Tables(f, c)) && Linked(f, d) && Describes(f, c, d, deltas)
    requires forall a :: a in deltas <==> a in order
    ensures SameShape(f, Shifted(f, order, deltas))
    ensures Consistent(Tables(Shifted(f, order, deltas), d))
  {
    var g := Shifted(f, order, deltas);
    assert forall x :: x in f ==> g[x].count == f[x].count + Get(deltas, x);
    ShapeKeepsStructure(f, g, d);
  }
}
