/**
 Deleting a whole subtree: connections first, then folders from the deepest level up,
 then the counts of the folders above.
 */
module FolderRemoval {
  import opened Common
  import opened FolderTables
  import opened FolderPaths
  import opened FolderCounts
  import opened FolderMoves

  datatype DescendantRow = DescendantRow(id: Id, depth: int)

  // ---- the order of the folder deletes ----

  function InsertByDepth(row: DescendantRow, rows: seq<DescendantRow>): seq<DescendantRow> {
    if rows == [] || rows[0].depth < row.depth then [row] + rows
    else [rows[0]] + InsertByDepth(row, rows[1..])
  }

  /** The rows in descending depth order. */
  function SortByDepth(rows: seq<DescendantRow>): seq<DescendantRow> {
    if rows == [] then [] else InsertByDepth(rows[|rows| - 1], SortByDepth(rows[..|rows| - 1]))
  }

  ghost predicate Descending(rows: seq<DescendantRow>) {
    forall i, j :: 0 <= i < j < |rows| ==> rows[i].depth >= rows[j].depth
  }

  ghost predicate DistinctIds(rows: seq<DescendantRow>) {
    forall i, j :: 0 <= i < j < |rows| ==> rows[i].id != rows[j].id
  }

  lemma {:induction false} InsertSorted(row: DescendantRow, rows: seq<DescendantRow>)
    requires Descending(rows) && DistinctIds(rows)
    requires forall r :: r in rows ==> r.id != row.id
    ensures Descending(InsertByDepth(row, rows)) && DistinctIds(InsertByDepth(row, rows))
    ensures forall r :: r in InsertByDepth(row, rows) <==> r in rows || r == row
  {
    if rows == [] || rows[0].depth < row.depth {
    } else {
      InsertSorted(row, rows[1..]);
      assert rows == [rows[0]] + rows[1..];
      assert forall r :: r in InsertByDepth(row, rows[1..]) ==> rows[0].depth >= r.depth && rows[0].id != r.id;
    }
  }

  /** Sorting by depth keeps exactly the same rows. */
  lemma {:induction false} SortIsSorted(rows: seq<DescendantRow>)
    requires DistinctIds(rows)
    ensures Descending(SortByDepth(rows)) && DistinctIds(SortByDepth(rows))
    ensures forall r :: r in SortByDepth(rows) <==> r in rows
    decreases |rows|
  {
    if rows != [] {
      var n := |rows| - 1;
      SortIsSorted(rows[..n]);
      InsertSorted(rows[n], SortByDepth(rows[..n]));
      assert rows == rows[..n] + [rows[n]];
    }
  }

  function Ids(rows: seq<DescendantRow>): seq<Id> {
    seq(|rows|, i requires 0 <= i < |rows| => rows[i].id)
  }

  /** What the recursive query of descendantRows returns, in any order. */
  ghost predicate Enumerates(f: Folders, top: Id, rows: seq<DescendantRow>) {
    && DistinctIds(rows)
    && (forall x :: x in Subtree(f, top) <==> x in Ids(rows))
    && (forall i :: 0 <= i < |rows| ==> rows[i].depth == RelativeDepth(f, top, rows[i].id))
  }

  lemma SortEnumerates(f: Folders, top: Id, rows: seq<DescendantRow>)
    requires Enumerates(f, top, rows)
    ensures Enumerates(f, top, SortByDepth(rows))
    ensures Descending(SortByDepth(rows))
  {
    var s := SortByDepth(rows);
    SortIsSorted(rows);
    forall x ensures x in Ids(s) <==> x in Ids(rows) {
      if x in Ids(s) {
        var i :| 0 <= i < |Ids(s)| && Ids(s)[i] == x;
        assert s[i] in rows;
        var j :| 0 <= j < |rows| && rows[j] == s[i];
        assert Ids(rows)[j] == x;
      }
      if x in Ids(rows) {
        var i :| 0 <= i < |Ids(rows)| && Ids(rows)[i] == x;
        assert rows[i] in s;
        var j :| 0 <= j < |s| && s[j] == rows[i];
        assert Ids(s)[j] == x;
      }
    }
    forall i | 0 <= i < |s| ensures s[i].depth == RelativeDepth(f, top, s[i].id) {
      assert s[i] in rows;
    }
  }

  // ---- the batch ----

  function DeleteHostsBatch(ids: seq<Id>): seq<Statement> {
    seq(|ids|, i requires 0 <= i < |ids| => DeleteConnectionsIn(ids[i]))
  }

  function DeleteFoldersBatch(ids: seq<Id>): seq<Statement> {
    seq(|ids|, i requires 0 <= i < |ids| => DeleteFolder(ids[i]))
  }

  function OutsideOf(c: Connections, ids: seq<Id>): Connections {
    map k | k in c && (c[k].folder.Some? ==> c[k].folder.value !in ids) :: c[k]
  }

  function Keys(ids: seq<Id>): set<Id> {
    set x | x in ids
  }

  lemma {:induction false} RunDeleteHosts(t: Tables, ids: seq<Id>)
    ensures RunAll(t, DeleteHostsBatch(ids)) == Ok(t.(connections := OutsideOf(t.connections, ids)))
    decreases |ids|
  {
    if ids == [] {
      assert OutsideOf(t.connections, ids) == t.connections;
    } else {
      var u := Run(t, DeleteConnectionsIn(ids[0])).value;
      RunOne(t, DeleteConnectionsIn(ids[0]));
      RunAllThen(t, [DeleteConnectionsIn(ids[0])], u, DeleteHostsBatch(ids[1..]));
      assert DeleteHostsBatch(ids) == [DeleteConnectionsIn(ids[0])] + DeleteHostsBatch(ids[1..]);
      RunDeleteHosts(u, ids[1..]);
      assert ids == [ids[0]] + ids[1..];
      assert OutsideOf(u.connections, ids[1..]) == OutsideOf(t.connections, ids);
    }
  }

  /** Every child of a listed folder stands before it. */
  ghost predicate ChildrenFirst(f: Folders, ids: seq<Id>) {
    forall x, i :: x in f && 0 <= i < |ids| && f[x].parent == Some(ids[i]) ==> x in ids[..i]
  }

  /** ON DELETE RESTRICT never fires when children go first and no connection is left inside. */
  lemma {:induction false} RunDeleteFolders(t: Tables, ids: seq<Id>)
    requires ChildrenFirst(t.folders, ids)
    requires forall i, j :: 0 <= i < j < |ids| ==> ids[i] != ids[j]
    requires forall k :: k in t.connections && t.connections[k].folder.Some? ==> t.connections[k].folder.value !in ids
    ensures RunAll(t, DeleteFoldersBatch(ids)) == Ok(t.(folders := t.folders - Keys(ids)))
    decreases |ids|
  {
    var f := t.folders;
    if ids == [] {
      assert f - Keys(ids) == f;
    } else {
      var x0 := ids[0];
      assert !Referenced(t, x0) by {
        assert ids[..0] == [];
        assert x0 in ids;
      }
      var u := t.(folders := f - {x0});
      assert Run(t, DeleteFolder(x0)) == Ok(u);
      RunOne(t, DeleteFolder(x0));
      RunAllThen(t, [DeleteFolder(x0)], u, DeleteFoldersBatch(ids[1..]));
      assert DeleteFoldersBatch(ids) == [DeleteFolder(x0)] + DeleteFoldersBatch(ids[1..]);
      ChildrenFirstTail(f, ids);
      RunDeleteFolders(u, ids[1..]);
      assert ids == [x0] + ids[1..];
      assert Keys(ids) == {x0} + Keys(ids[1..]);
      assert u.folders - Keys(ids[1..]) == f - Keys(ids);
    }
  }

  lemma ChildrenFirstTail(f: Folders, ids: seq<Id>)
    requires ChildrenFirst(f, ids) && ids != []
    ensures ChildrenFirst(f - {ids[0]}, ids[1..])
  {
    var g, tail := f - {ids[0]}, ids[1..];
    forall x, i | x in g && 0 <= i < |tail| && g[x].parent == Some(tail[i]) ensures x in tail[..i] {
      assert f[x].parent == Some(ids[i + 1]);
      assert x in ids[..i + 1];
      assert ids[..i + 1] == [ids[0]] + tail[..i];
    }
  }

  lemma ChildBelow(f: Folders, top: Id, x: Id, y: Id)
    requires Forest(f) && x in f && f[x].parent == Some(y) && y in Subtree(f, top)
    ensures x in Subtree(f, top)
    ensures RelativeDepth(f, top, x) == RelativeDepth(f, top, y) + 1
  {
    PathStep(f, x);
  }

  /** Descending depth puts children first. */
  lemma DeepestFirst(f: Folders, top: Id, rows: seq<DescendantRow>)
    requires Forest(f) && Enumerates(f, top, rows) && Descending(rows)
    ensures ChildrenFirst(f, Ids(rows))
  {
    var ids := Ids(rows);
    forall x, i | x in f && 0 <= i < |ids| && f[x].parent == Some(ids[i]) ensures x in ids[..i] {
      assert ids[i] in ids;
      ChildBelow(f, top, x, ids[i]);
      var j :| 0 <= j < |ids| && ids[j] == x;
      assert rows[j].depth > rows[i].depth;
      assert ids[..i][j] == x;
    }
  }

  function Removed(t: Tables, id: Id): Tables
    requires id in t.folders
  {
    var f := t.folders;
    Tables(Bumped(f - Subtree(f, id), Path(f, f[id].parent), -f[id].count),
           t.connections - HostSet(f, t.connections, id))
  }

  /** The connections outside the listed folders are those that do not count for the top folder. */
  lemma OutsideIsUncounted(t: Tables, id: Id, ids: seq<Id>)
    requires Linked(t.folders, t.connections) && id in t.folders
    requires Forest(t.folders)
    requires forall x :: x in Subtree(t.folders, id) <==> x in ids
    ensures OutsideOf(t.connections, ids) == t.connections - HostSet(t.folders, t.connections, id)
  {
    var f, c := t.folders, t.connections;
    forall k | k in c ensures k in HostSet(f, c, id) <==> (c[k].folder.Some? && c[k].folder.value in ids) {
      PathOf(f, c[k].folder);
    }
  }

  /** The folder deletes of the batch are never blocked, whatever order the rows came in. */
  lemma RunSubtreeDeletes(t: Tables, id: Id, rows: seq<DescendantRow>)
    requires Forest(t.folders) && id in t.folders && Enumerates(t.folders, id, rows)
    requires forall k :: k in t.connections && t.connections[k].folder.Some? ==>
                           t.connections[k].folder.value !in Subtree(t.folders, id)
    ensures RunAll(t, DeleteFoldersBatch(Ids(SortByDepth(rows)))) ==
            Ok(t.(folders := t.folders - Subtree(t.folders, id)))
  {
    var sorted := Ids(SortByDepth(rows));
    SortEnumerates(t.folders, id, rows);
    DeepestFirst(t.folders, id, SortByDepth(rows));
    assert Keys(sorted) == Subtree(t.folders, id);
    assert forall x :: x in sorted ==> x in Subtree(t.folders, id);
    RunDeleteFolders(t, sorted);
  }

  /** The tables once every connection of the subtree is deleted, and then every folder of it. */
  function Emptied(t: Tables, id: Id): Tables {
    t.(connections := t.connections - HostSet(t.folders, t.connections, id))
  }

  function Cut(t: Tables, id: Id): Tables {
    Tables(t.folders - Subtree(t.folders, id), t.connections - HostSet(t.folders, t.connections, id))
  }

  lemma RunHostDeletes(t: Tables, id: Id, rows: seq<DescendantRow>)
    requires Consistent(t) && id in t.folders && Enumerates(t.folders, id, rows)
    ensures RunAll(t, DeleteHostsBatch(Ids(rows))) == Ok(Emptied(t, id))
  {
    OutsideIsUncounted(t, id, Ids(rows));
    RunDeleteHosts(t, Ids(rows));
  }

  lemma RunChainCounts(t: Tables, f: Folders, at: Option<Id>, n: int, counts: seq<Statement>)
    requires Forest(f) && Exists(f, at)
    requires counts == CountStatements(Path(f, at), n)
    ensures RunAll(t, counts) == Ok(t.(folders := Bumped(t.folders, Path(f, at), n)))
  {
    DistinctChain(f, at);
    RunCounts(t, Path(f, at), n);
  }

  lemma RunRemovalCounts(t: Tables, id: Id, counts: seq<Statement>)
    requires Forest(t.folders) && id in t.folders
    requires counts == CountStatements(Path(t.folders, t.folders[id].parent), -t.folders[id].count)
    ensures RunAll(Cut(t, id), counts) == Ok(Removed(t, id))
  {
    PathStep(t.folders, id);
    RunChainCounts(Cut(t, id), t.folders, t.folders[id].parent, -t.folders[id].count, counts);
  }

  lemma RunRemovalParts(t: Tables, id: Id, rows: seq<DescendantRow>, hosts: seq<Statement>, folders: seq<Statement>)
    requires Consistent(t) && id in t.folders && Enumerates(t.folders, id, rows)
    requires hosts == DeleteHostsBatch(Ids(rows)) && folders == DeleteFoldersBatch(Ids(SortByDepth(rows)))
    ensures RunAll(t, hosts) == Ok(Emptied(t, id))
    ensures RunAll(Emptied(t, id), folders) == Ok(Cut(t, id))
  {
    RunHostDeletes(t, id, rows);
    NoHostsInside(t, id);
    RunSubtreeDeletes(Emptied(t, id), id, rows);
  }

  /** The recursive delete never fails. */
  lemma RunRemoval(t: Tables, id: Id, rows: seq<DescendantRow>, hosts: seq<Statement>, folders: seq<Statement>, counts: seq<Statement>)
    requires Consistent(t) && id in t.folders && Enumerates(t.folders, id, rows)
    requires hosts == DeleteHostsBatch(Ids(rows)) && folders == DeleteFoldersBatch(Ids(SortByDepth(rows)))
    requires counts == CountStatements(Path(t.folders, t.folders[id].parent), -t.folders[id].count)
    ensures RunAll(t, hosts + folders + counts) == Ok(Removed(t, id))
  {
    RunRemovalParts(t, id, rows, hosts, folders);
    RunRemovalCounts(t, id, counts);
    RunThree(t, hosts, Emptied(t, id), folders, Cut(t, id), counts, Removed(t, id));
  }

  lemma NoHostsInside(t: Tables, id: Id)
    ensures var c := t.connections - HostSet(t.folders, t.connections, id);
            forall k :: k in c && c[k].folder.Some? ==> c[k].folder.value !in Subtree(t.folders, id)
  {
  }

  // ---- what is left ----

  lemma ChainAfterRemoval(f: Folders, id: Id, at: Option<Id>)
    requires Forest(f) && id in f && Exists(f, at) && id !in Path(f, at)
    ensures IsPath(f - Subtree(f, id), at, Path(f, at))
    ensures Path(f - Subtree(f, id), at) == Path(f, at)
    ensures Exists(f - Subtree(f, id), at)
  {
    var g := f - Subtree(f, id);
    PathOf(f, at);
    forall a | a in Path(f, at) ensures a in g && g[a].parent == f[a].parent {
      if Under(f, id, a) {
        UnderTransitive(f, id, a, at);
      }
    }
    PathFrame(f, g, at, Path(f, at));
    PathIs(g, at, Path(f, at));
  }

  lemma OneHostAfterRemoval(t: Tables, id: Id, a: Id, k: Id)
    requires Consistent(t) && id in t.folders && a in t.folders && !Under(t.folders, id, a) && k in t.connections
    ensures var f, c, at := t.folders, t.connections, t.connections[k].folder;
            if id in Path(f, at) then a in Path(f, at) <==> a in Path(f, f[id].parent)
            else Path(f - Subtree(f, id), at) == Path(f, at)
  {
    var f, at := t.folders, t.connections[k].folder;
    assert Exists(f, at);
    PathOf(f, at);
    if id in Path(f, at) {
      SplitAt(f, id, at.value);
    } else {
      ChainAfterRemoval(f, id, at);
    }
  }

  /** A count outside the subtree loses the removed hosts exactly when it is above the removed folder. */
  lemma HostsAfterRemoval(t: Tables, id: Id, a: Id)
    requires Consistent(t) && id in t.folders && a in t.folders && !Under(t.folders, id, a)
    ensures var f, c := t.folders, t.connections;
            Hosts(f - Subtree(f, id), c - HostSet(f, c, id), a) ==
            Hosts(f, c, a) - (if a in Path(f, f[id].parent) then Hosts(f, c, id) else 0)
  {
    var f, c := t.folders, t.connections;
    var gone := HostSet(f, c, id);
    forall k | k in c
      ensures k in gone ==> (k in HostSet(f, c, a) <==> a in Path(f, f[id].parent))
      ensures k !in gone ==> (k in HostSet(f - Subtree(f, id), c - gone, a) <==> k in HostSet(f, c, a))
    {
      OneHostAfterRemoval(t, id, a, k);
    }
    var after := HostSet(f - Subtree(f, id), c - gone, a);
    if a in Path(f, f[id].parent) {
      assert HostSet(f, c, a) == after + gone;
    } else {
      assert HostSet(f, c, a) == after;
    }
  }

  /** The recursive delete keeps the invariant, and removes as many connections as the cached count said. */
  lemma RemovalKeepsIndex(t: Tables, id: Id)
    requires Consistent(t) && id in t.folders
    ensures Consistent(Removed(t, id))
    ensures Removed(t, id).folders.Keys == t.folders.Keys - Subtree(t.folders, id)
    ensures SameShape(t.folders - Subtree(t.folders, id), Removed(t, id).folders)
    ensures |t.connections| - |Removed(t, id).connections| == t.folders[id].count
  {
    var f, c := t.folders, t.connections;
    var g, d, h := f - Subtree(f, id), c - HostSet(f, c, id), Removed(t, id).folders;
    assert SameShape(g, h);
    forall x | x in g
      ensures IsPath(g, Some(x), Path(g, Some(x)))
      ensures h[x].count == Hosts(g, d, x)
    {
      ChainAfterRemoval(f, id, Some(x));
      HostsAfterRemoval(t, id, x);
    }
    forall k | k in d ensures Exists(g, d[k].folder) {
      ChainAfterRemoval(f, id, c[k].folder);
    }
    assert UniqueNames(g) && ScopesMatch(g);
    ShapeKeepsStructure(g, h, d);
    assert d.Keys == c.Keys - HostSet(f, c, id);
    assert |d| == |d.Keys| && |c| == |c.Keys|;
  }
}
