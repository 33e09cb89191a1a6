/**
 The cached host counts: what the invariant of the store says, and how inserting,
 deleting and moving connections changes the plain definition of a count.
 */
module FolderCounts {
  import opened Common
  import opened FolderTables
  import opened FolderPaths

  ghost predicate ScopesMatch(f: Folders) {
    ROOT_SCOPE !in f && forall x :: x in f ==> f[x].scope == ParentScope(f[x].parent)
  }

  ghost predicate Linked(f: Folders, c: Connections) {
    forall k :: k in c ==> Exists(f, c[k].folder)
  }

  /** Every cached count is the number of connections below the folder. */
  ghost predicate Indexed(f: Folders, c: Connections) {
    forall x :: x in f ==> f[x].count == Hosts(f, c, x)
  }

  ghost predicate Consistent(t: Tables) {
    && Forest(t.folders)
    && ScopesMatch(t.folders)
    && UniqueNames(t.folders)
    && Linked(t.folders, t.connections)
    && Indexed(t.folders, t.connections)
  }

  /** g differs from f in the cached counts only. */
  ghost predicate SameShape(f: Folders, g: Folders) {
    g.Keys == f.Keys && forall x :: x in f ==> g[x] == f[x].(count := g[x].count)
  }

  lemma ShapeKeepsStructure(f: Folders, g: Folders, c: Connections)
    requires SameShape(f, g)
    ensures SameParents(f, g)
    ensures Forest(f) ==> Forest(g)
    ensures ScopesMatch(f) ==> ScopesMatch(g)
    ensures UniqueNames(f) ==> UniqueNames(g)
    ensures Linked(f, c) ==> Linked(g, c)
    ensures forall a :: Hosts(g, c, a) == Hosts(f, c, a)
  {
    SameParentsPaths(f, g);
    forall a ensures Hosts(g, c, a) == Hosts(f, c, a) {
      SameParentsHosts(f, g, c, a);
    }
  }

  function Bumped(f: Folders, ids: seq<Id>, delta: int): Folders {
    map x | x in f :: if x in ids then f[x].(count := f[x].count + delta) else f[x]
  }

  /** One count update per folder of the chain; none at all for a zero delta. */
  function CountStatements(ids: seq<Id>, delta: int): seq<Statement> {
    if delta == 0 then [] else seq(|ids|, i requires 0 <= i < |ids| => AddToCount(ids[i], delta))
  }

  lemma BumpFirst(t: Tables, ids: seq<Id>, delta: int)
    requires ids != [] && ids[0] !in ids[1..]
    ensures Bumped(Count(t, ids[0], delta).folders, ids[1..], delta) == Bumped(t.folders, ids, delta)
  {
    assert ids == [ids[0]] + ids[1..];
  }

  lemma {:induction false} RunCounts(t: Tables, ids: seq<Id>, delta: int)
    requires forall i, j :: 0 <= i < j < |ids| ==> ids[i] != ids[j]
    ensures RunAll(t, CountStatements(ids, delta)) == Ok(t.(folders := Bumped(t.folders, ids, delta)))
    decreases |ids|
  {
    var batch := CountStatements(ids, delta);
    if batch == [] {
      assert Bumped(t.folders, ids, delta) == t.folders;
    } else {
      var first, rest := AddToCount(ids[0], delta), CountStatements(ids[1..], delta);
      var u := Count(t, ids[0], delta);
      RunCounts(u, ids[1..], delta);
      BumpFirst(t, ids, delta);
      RunOne(t, first);
      RunAllThen(t, [first], u, rest);
      assert batch == [first] + rest;
    }
  }

  // ---- how one connection counts ----

  function On(b: bool): int {
    if b then 1 else 0
  }

  lemma HostsWithout(f: Folders, c: Connections, k: Id, a: Id)
    requires k in c
    ensures Hosts(f, c, a) == Hosts(f, c - {k}, a) + On(a in Path(f, c[k].folder))
  {
    var rest := HostSet(f, c - {k}, a);
    if a in Path(f, c[k].folder) {
      assert HostSet(f, c, a) == rest + {k};
    } else {
      assert HostSet(f, c, a) == rest;
    }
  }

  /** Moving one connection changes each count by its new chain minus its old chain. */
  lemma HostsMoved(f: Folders, c: Connections, k: Id, target: Option<Id>, a: Id)
    requires k in c
    ensures Hosts(f, Moved(c, {k}, target), a) ==
            Hosts(f, c, a) + On(a in Path(f, target)) - On(a in Path(f, c[k].folder))
  {
    var d := Moved(c, {k}, target);
    HostsWithout(f, c, k, a);
    HostsWithout(f, d, k, a);
    assert d - {k} == c - {k};
  }

  /** Bumping a chain is right when every plain count moved by the same amount. */
  lemma BumpKeepsIndex(f: Folders, c: Connections, d: Connections, ids: seq<Id>, delta: int)
    requires Consistent(Tables(f, c)) && Linked(f, d)
    requires forall x :: x in f ==> Hosts(f, d, x) == Hosts(f, c, x) + (if x in ids then delta else 0)
    ensures SameShape(f, Bumped(f, ids, delta))
    ensures Consistent(Tables(Bumped(f, ids, delta), d))
  {
    ShapeKeepsStructure(f, Bumped(f, ids, delta), d);
  }

  /** A first statement on the connections, then one count update for each folder of a chain. */
  lemma RunThenCount(t: Tables, s: Statement, d: Connections, at: Option<Id>, delta: int)
    requires Forest(t.folders) && Exists(t.folders, at)
    requires Run(t, s) == Ok(t.(connections := d))
    ensures RunAll(t, [s] + CountStatements(Path(t.folders, at), delta)) ==
            Ok(Tables(Bumped(t.folders, Path(t.folders, at), delta), d))
  {
    var p := Path(t.folders, at);
    PathOf(t.folders, at);
    PathDistinct(t.folders, at, p);
    RunCounts(t.(connections := d), p, delta);
    var batch := [s] + CountStatements(p, delta);
    assert batch[1..] == CountStatements(p, delta);
  }

  /** The batch of createConnection: it always succeeds and keeps the invariant. */
  lemma InsertKeepsIndex(t: Tables, k: Id, target: Option<Id>, payload: string) returns (u: Tables)
    requires Consistent(t) && k !in t.connections && Exists(t.folders, target)
    ensures RunAll(t, [InsertConnection(k, target, payload)] + CountStatements(Path(t.folders, target), 1)) == Ok(u)
    ensures Consistent(u) && SameShape(t.folders, u.folders)
    ensures u.connections == t.connections[k := ConnectionRow(target, payload)]
  {
    var f, c := t.folders, t.connections;
    var d := c[k := ConnectionRow(target, payload)];
    RunThenCount(t, InsertConnection(k, target, payload), d, target, 1);
    u := Tables(Bumped(f, Path(f, target), 1), d);
    forall x | x in f ensures Hosts(f, d, x) == Hosts(f, c, x) + On(x in Path(f, target)) {
      HostsWithout(f, d, k, x);
      assert d - {k} == c;
    }
    BumpKeepsIndex(f, c, d, Path(f, target), 1);
  }

  /** The batch of deleteConnection. */
  lemma DeleteKeepsIndex(t: Tables, k: Id) returns (u: Tables)
    requires Consistent(t) && k in t.connections
    ensures RunAll(t, [DeleteConnection(k)] + CountStatements(Path(t.folders, t.connections[k].folder), -1)) == Ok(u)
    ensures Consistent(u) && SameShape(t.folders, u.folders)
    ensures u.connections == t.connections - {k}
  {
    var f, c := t.folders, t.connections;
    var at := c[k].folder;
    var d := c - {k};
    RunThenCount(t, DeleteConnection(k), d, at, -1);
    u := Tables(Bumped(f, Path(f, at), -1), d);
    forall x | x in f ensures Hosts(f, d, x) == Hosts(f, c, x) - On(x in Path(f, at)) {
      HostsWithout(f, c, k, x);
    }
    BumpKeepsIndex(f, c, d, Path(f, at), -1);
  }
}
