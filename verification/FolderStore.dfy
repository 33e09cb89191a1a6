/**
 The D1-backed store of folders and connections. Every operation reads what it needs,
 then applies one batch; each method is proved to leave exactly the tables its result
 promises, and a failing one leaves them untouched.
 */
module FolderStore {
  import opened Common
  import opened FolderTables
  import opened FolderPaths
  import opened FolderCounts
  import opened FolderMoves
  import opened FolderDeletes
  import opened FolderRemoval
  import opened FolderEdits
  import opened FolderHostMoves
  import Text

  datatype StoreError =
    | CredentialRequired
    | RecordNotFound
    | NameRequired
    | DuplicateFolderName
    | FolderDepthExceeded
    | FolderCycle
    | TooManyConnections
    | DatabaseFailure

  datatype NewConnection = NewConnection(
    usesPassword: bool, password: string, privateKey: string, payload: string)

  predicate HasCredential(input: NewConnection) {
    if input.usesPassword then input.password != "" else input.privateKey != ""
  }

  datatype DeleteMode = Recursive | Promote

  // ---- what the operations leave, row by row ----

  function ScopeOf(parent: Option<Id>): string {
    if parent.Some? then parent.value else "__root__"
  }

  /** Everything about a folder but its cached count. */
  ghost predicate SameFolder(a: FolderRow, b: FolderRow) {
    a.parent == b.parent && a.scope == b.scope && a.name == b.name && a.token == b.token
  }

  /** The named connections are in the target folder; nothing else about any connection has changed. */
  ghost predicate OnlyMovedTo(c: Connections, d: Connections, ids: seq<Id>, target: Option<Id>) {
    && d.Keys == c.Keys
    && forall k :: k in c ==> d[k].payload == c[k].payload && d[k].folder == if k in ids then target else c[k].folder
  }

  /** The folder has its new parent and keeps its name; every other folder stays where it is, as it is. */
  ghost predicate MovedUnder(f: Folders, g: Folders, id: Id, target: Option<Id>) {
    && id in f && g.Keys == f.Keys
    && g[id].parent == target && g[id].scope == ScopeOf(target)
    && g[id].name == f[id].name && g[id].token == f[id].token
    && forall x :: x in f && x != id ==> SameFolder(f[x], g[x])
  }

  /** Where something inside the folder goes when the folder is taken out. */
  function OneUp(at: Option<Id>, id: Id, parent: Option<Id>): Option<Id> {
    if at == Some(id) then parent else at
  }

  /** The folder is gone and its parent has its children and connections; names, counts and payloads are kept. */
  ghost predicate HandedOver(t: Tables, u: Tables, id: Id) {
    && id in t.folders && u.folders.Keys == t.folders.Keys - {id} && u.connections.Keys == t.connections.Keys
    && (forall x :: x in u.folders ==>
          var row, up := t.folders[x], OneUp(t.folders[x].parent, id, t.folders[id].parent);
          u.folders[x] == FolderRow(up, ScopeOf(up), row.name, row.token, row.count))
    && (forall k :: k in u.connections ==>
          var row := t.connections[k];
          u.connections[k] == ConnectionRow(OneUp(row.folder, id, t.folders[id].parent), row.payload))
  }

  lemma PromotedIsHandedOver(t: Tables, id: Id)
    requires Consistent(t) && id in t.folders
    ensures HandedOver(t, Promoted(t, id), id)
  {
    assert forall x :: x in t.folders ==> t.folders[x].scope == ScopeOf(t.folders[x].parent);
  }

  lemma RelinkedIsMovedUnder(f: Folders, g: Folders, id: Id, target: Option<Id>)
    requires id in f && SameShape(Relinked(f, id, target), g)
    ensures MovedUnder(f, g, id, target)
  {
    var h := Relinked(f, id, target);
    assert g[id] == h[id].(count := g[id].count);
    forall x | x in f && x != id ensures SameFolder(f[x], g[x]) {
      assert g[x] == h[x].(count := g[x].count) && h[x] == f[x];
    }
  }

  lemma MovedIsMovedTo(c: Connections, ids: seq<Id>, target: Option<Id>)
    ensures OnlyMovedTo(c, Moved(c, Elements(ids), target), ids, target)
  {
  }

  /** Only a unique failure has a name of its own; any other database error passes through. */
  function ToStoreError(e: DbError): StoreError {
    if e == UniqueFailed then DuplicateFolderName else DatabaseFailure
  }

  class D1ConnectionStore {
    var folders: Folders
    var connections: Connections
    const nameToken: string -> string

    ghost function State(): Tables
      reads this
    {
      Tables(folders, connections)
    }

    ghost predicate Valid()
      reads this
    {
      Consistent(State())
    }

    constructor (nameToken: string -> string)
      ensures Valid() && State() == Tables(map[], map[]) && this.nameToken == nameToken
    {
      folders := map[];
      connections := map[];
      this.nameToken := nameToken;
    }

    /** db.batch: the statements run in order; after a failure nothing of the batch remains. */
    method Batch(batch: seq<Statement>) returns (r: Result<(), DbError>)
      modifies this
      ensures r == match RunAll(old(State()), batch) { case Ok(_) => Ok(()) case Err(e) => Err(e) }
      ensures State() == match RunAll(old(State()), batch) { case Ok(u) => u case Err(_) => old(State()) }
    {
      var t, i := Tables(folders, connections), 0;
      while i < |batch|
        invariant 0 <= i <= |batch|
        invariant RunAll(old(State()), batch) == RunAll(t, batch[i..])
        invariant State() == old(State())
      {
        match Run(t, batch[i]) {
          case Err(e) => return Err(e);
          case Ok(u) => t := u;
        }
        i := i + 1;
      }
      folders, connections := t.folders, t.connections;
      r := Ok(());
    }

    /** The recursive query of ancestorIds, one join per round. */
    method AncestorIds(at: Option<Id>) returns (ids: seq<Id>)
      requires Forest(folders) && Exists(folders, at)
      ensures ids == Path(folders, at)
      ensures Distinct(ids) && forall a :: a in ids ==> a in folders
    {
      ids := [];
      var next := at;
      PathOf(folders, at);
      DistinctChain(folders, at);
      while next.Some? && next.value in folders
        invariant Exists(folders, next)
        invariant ids + Path(folders, next) == Path(folders, at)
        decreases |Path(folders, next)|
      {
        PathStep(folders, next.value);
        ids := ids + [next.value];
        next := folders[next.value].parent;
      }
      PathOf(folders, next);
    }

    method FolderDepth(id: Id) returns (depth: nat)
      requires Forest(folders) && id in folders
      ensures depth == Depth(folders, id)
    {
      var ids := AncestorIds(Some(id));
      depth := |ids|;
    }

    /** The folders whose parent is `id`, in some order. */
    method Children(id: Id) returns (ids: seq<Id>)
      ensures Distinct(ids)
      ensures forall x :: x in ids <==> x in folders && folders[x].parent == Some(id)
    {
      ids := [];
      var left := set x | x in folders && folders[x].parent == Some(id);
      while left != {}
        invariant Distinct(ids)
        invariant forall x :: x in ids ==> x !in left
        invariant forall x :: x in ids || x in left <==> x in folders && folders[x].parent == Some(id)
        decreases |left|
      {
        var x :| x in left;
        left := left - {x};
        ids := ids + [x];
      }
    }

    /** The recursive query of descendantRows: a queue that grows by the children of each row it passes. */
    method DescendantRows(id: Id) returns (rows: seq<DescendantRow>)
      requires Forest(folders) && id in folders
      ensures Enumerates(folders, id, rows)
    {
      rows := [DescendantRow(id, 1)];
      PathStep(folders, id);
      var i := 0;
      while i < |rows|
        invariant 0 <= i <= |rows|
        invariant RowsBelow(folders, id, rows) && rows[0].id == id
        invariant ClosedUpTo(folders, rows, i)
        invariant FromEarlier(folders, rows, i)
        decreases |folders| - i
      {
        RowsFit(folders, id, rows);
        var kids := Children(rows[i].id);
        QueueStaysBelow(folders, id, rows, i, kids);
        ghost var longer := rows + ChildRows(kids, rows[i].depth + 1);
        QueueClosed(folders, rows, i, kids, longer);
        QueueFromEarlier(folders, rows, i, kids, longer);
        rows := rows + ChildRows(kids, rows[i].depth + 1);
        i := i + 1;
      }
      ClosedIsSubtree(folders, id, rows);
    }

    method FolderSubtreeHeight(id: Id) returns (height: int)
      requires Forest(folders) && id in folders
      ensures forall x :: x in Subtree(folders, id) ==> RelativeDepth(folders, id, x) <= height
      ensures exists x :: x in Subtree(folders, id) && RelativeDepth(folders, id, x) == height
    {
      var rows := DescendantRows(id);
      PathStep(folders, id);
      assert id in Ids(rows);
      height := rows[0].depth;
      assert Ids(rows)[0] in Ids(rows);
      var i := 1;
      while i < |rows|
        invariant 1 <= i <= |rows|
        invariant forall j :: 0 <= j < i ==> rows[j].depth <= height
        invariant exists j :: 0 <= j < i && rows[j].depth == height && Ids(rows)[j] in Ids(rows)
      {
        assert Ids(rows)[i] in Ids(rows);
        if height < rows[i].depth { height := rows[i].depth; }
        i := i + 1;
      }
      forall x | x in Subtree(folders, id) ensures RelativeDepth(folders, id, x) <= height {
        var j :| 0 <= j < |rows| && Ids(rows)[j] == x;
        assert rows[j].depth <= height;
      }
    }

    method IsDescendant(candidate: Option<Id>, ancestor: Id) returns (r: bool)
      requires Forest(folders) && ancestor in folders
      requires Exists(folders, candidate)
      ensures r <==> ancestor in Path(folders, candidate)
    {
      PathOf(folders, candidate);
      if candidate.None? { return false; }
      var rows := DescendantRows(ancestor);
      r := candidate.value in Ids(rows);
      assert r <==> candidate.value in Subtree(folders, ancestor);
    }

    method CountStatementsFor(at: Option<Id>, delta: int) returns (batch: seq<Statement>)
      requires Forest(folders) && Exists(folders, at)
      ensures batch == CountStatements(Path(folders, at), delta)
    {
      if delta == 0 { return []; }
      var ids := AncestorIds(at);
      batch := seq(|ids|, i requires 0 <= i < |ids| => AddToCount(ids[i], delta));
    }

    // ---- operations ----

    method CreateConnection(id: Id, input: NewConnection, folderId: Option<Id>) returns (r: Result<(), StoreError>)
      requires Valid() && id !in connections
      modifies this
      ensures Valid() && SameShape(old(folders), folders)
      ensures r == if (if input.usesPassword then input.password == "" else input.privateKey == "") then Err(CredentialRequired)
                   else if !Exists(old(folders), folderId) then Err(RecordNotFound)
                   else Ok(())
      ensures connections == if r.Ok? then old(connections)[id := ConnectionRow(folderId, input.payload)]
                             else old(connections)
      ensures r.Err? ==> State() == old(State())
    {
      if !HasCredential(input) { return Err(CredentialRequired); }
      if folderId.Some? && folderId.value !in folders { return Err(RecordNotFound); }
      ghost var u := InsertKeepsIndex(State(), id, folderId, input.payload);
      var counts := CountStatementsFor(folderId, 1);
      var done := Batch([InsertConnection(id, folderId, input.payload)] + counts);
      r := if done.Ok? then Ok(()) else Err(DatabaseFailure);
    }

    method DeleteConnectionById(id: Id) returns (r: bool)
      requires Valid()
      modifies this
      ensures Valid() && SameShape(old(folders), folders)
      ensures r == (id in old(connections))
      ensures connections == old(connections) - {id}
      ensures !r ==> State() == old(State())
    {
      if id !in connections { return false; }
      ghost var u := DeleteKeepsIndex(State(), id);
      var counts := CountStatementsFor(connections[id].folder, -1);
      var done := Batch([DeleteConnection(id)] + counts);
      r := true;
    }

    method MoveConnections(ids: seq<Id>, folderId: Option<Id>) returns (r: Result<(), StoreError>)
      requires Valid()
      modifies this
      ensures Valid() && SameShape(old(folders), folders)
      ensures var unique := Unique(ids);
              r == if unique == [] then Ok(())
                   else if |unique| > 50 then Err(TooManyConnections)
                   else if !Exists(old(folders), folderId) then Err(RecordNotFound)
                   else if exists k :: k in ids && k !in old(connections) then Err(RecordNotFound)
                   else Ok(())
      ensures r.Ok? ==> OnlyMovedTo(old(connections), connections, ids, folderId)
      ensures r.Err? ==> State() == old(State())
    {
      var unique := Unique(ids);
      UniqueIsDistinct(ids);
      assert Elements(unique) == Elements(ids);
      if |unique| == 0 { return Ok(()); }
      if |unique| > MAX_CONNECTION_MOVE_BATCH { return Err(TooManyConnections); }
      if folderId.Some? && folderId.value !in folders { return Err(RecordNotFound); }
      var known := AllKnown(unique);
      if !known { return Err(RecordNotFound); }
      ApplyHostMoves(unique, folderId);
      r := Ok(());
    }

    /** The loop that reads the rows. */
    method AllKnown(ids: seq<Id>) returns (known: bool)
      ensures known <==> forall k :: k in ids ==> k in connections
    {
      for i := 0 to |ids|
        invariant forall j :: 0 <= j < i ==> ids[j] in connections
      {
        if ids[i] !in connections { return false; }
      }
      known := true;
    }

    /** The deltas and the batch of moveConnections, its checks having passed. */
    method ApplyHostMoves(unique: seq<Id>, folderId: Option<Id>)
      requires Valid() && Distinct(unique) && Exists(folders, folderId)
      requires forall k :: k in unique ==> k in connections
      modifies this
      ensures Valid() && SameShape(old(folders), folders)
      ensures OnlyMovedTo(old(connections), connections, unique, folderId)
    {
      var deltas := CollectDeltas(unique, folderId);
      var moves := CollectMoves(unique, folderId);
      var order := KeysInOrder(deltas);
      var shifts := CollectShifts(order, deltas);
      HostMoveKeepsIndex(State(), unique, folderId, order, deltas);
      if |moves + shifts| > 0 {
        var done := Batch(moves + shifts);
      }
      MovedIsMovedTo(old(connections), unique, folderId);
    }

    /** The loop of moveConnections that fills the deltas. */
    method CollectDeltas(ids: seq<Id>, target: Option<Id>) returns (deltas: map<Id, int>)
      requires Forest(folders) && Linked(folders, connections) && Exists(folders, target)
      requires Distinct(ids) && forall k :: k in ids ==> k in connections
      ensures Describes(folders, connections, Moved(connections, Elements(ids), target), deltas)
    {
      deltas := map[];
      NothingMoved(folders, connections, target);
      assert Elements(ids[..0]) == {};
      for i := 0 to |ids|
        invariant Describes(folders, connections, Moved(connections, Elements(ids[..i]), target), deltas)
      {
        ElementsOneMore(ids, i);
        deltas := AddRow(deltas, ids[i], target, Elements(ids[..i]));
      }
      assert ids[..|ids|] == ids;
    }

    /** One row: nothing if it is already there, else one loop down its old chain and one up the new one. */
    method AddRow(deltas: map<Id, int>, k: Id, target: Option<Id>, ghost before: set<Id>) returns (out: map<Id, int>)
      requires Forest(folders) && Linked(folders, connections) && Exists(folders, target)
      requires k in connections && k !in before
      requires Describes(folders, connections, Moved(connections, before, target), deltas)
      ensures Describes(folders, connections, Moved(connections, before + {k}, target), out)
    {
      if connections[k].folder == target {
        MovedOneMore(connections, before, k, target);
        assert Moved(connections, before + {k}, target) == Moved(connections, before, target);
        return deltas;
      }
      var down := AncestorIds(connections[k].folder);
      out := AddAlong(deltas, down, -1);
      var up := AncestorIds(target);
      out := AddAlong(out, up, 1);
      DescribesOneMore(folders, connections, before, k, target, deltas, out);
    }

    method CollectMoves(ids: seq<Id>, target: Option<Id>) returns (batch: seq<Statement>)
      requires forall k :: k in ids ==> k in connections
      ensures batch == MoveStatements(ids, connections, target)
    {
      batch := [];
      for i := 0 to |ids|
        invariant batch == MoveStatements(ids[..i], connections, target)
      {
        assert ids[..i + 1][..i] == ids[..i];
        if connections[ids[i]].folder != target {
          batch := batch + [SetConnectionFolder(ids[i], target)];
        }
      }
      assert ids[..|ids|] == ids;
    }

    method CreateFolder(id: Id, name: string, parentId: Option<Id>) returns (r: Result<(), StoreError>)
      requires Valid() && id !in folders && id != ROOT_SCOPE
      modifies this
      ensures Valid() && connections == old(connections)
      ensures r == if Text.Trim(name) == "" then Err(NameRequired)
                   else if !Exists(old(folders), parentId) then Err(RecordNotFound)
                   else if |Path(old(folders), parentId)| >= 8 then Err(FolderDepthExceeded)
                   else if exists x :: x in old(folders) && old(folders)[x].parent == parentId
                                       && old(folders)[x].token == nameToken(Text.Trim(name)) then Err(DuplicateFolderName)
                   else Ok(())
      ensures folders == if r.Ok? then old(folders)[id := FolderRow(parentId, ScopeOf(parentId), Text.Trim(name),
                                                                    nameToken(Text.Trim(name)), 0)]
                         else old(folders)
    {
      var clean := Text.Trim(name);
      if clean == "" { return Err(NameRequired); }
      if parentId.Some? {
        if parentId.value !in folders { return Err(RecordNotFound); }
        var depth := FolderDepth(parentId.value);
        if depth >= MAX_FOLDER_DEPTH { return Err(FolderDepthExceeded); }
      }
      PathOf(folders, parentId);
      LeafNameExact(State(), id, parentId, clean, nameToken(clean));
      RunOne(State(), InsertFolder(id, parentId, clean, nameToken(clean)));
      var done := Batch([InsertFolder(id, parentId, clean, nameToken(clean))]);
      if done.Err? { return Err(ToStoreError(done.error)); }
      LeafKeepsIndex(old(State()), id, parentId, clean, nameToken(clean));
      r := Ok(());
    }

    method RenameFolderTo(id: Id, name: string) returns (r: Result<bool, StoreError>)
      requires Valid()
      modifies this
      ensures Valid() && connections == old(connections)
      ensures r == if id !in old(folders) then Ok(false)
                   else if Text.Trim(name) == "" then Err(NameRequired)
                   else if exists x :: x in old(folders) && x != id && old(folders)[x].parent == old(folders)[id].parent
                                       && old(folders)[x].token == nameToken(Text.Trim(name)) then Err(DuplicateFolderName)
                   else Ok(true)
      ensures folders == if r == Ok(true)
                         then old(folders)[id := FolderRow(old(folders)[id].parent, old(folders)[id].scope, Text.Trim(name),
                                                           nameToken(Text.Trim(name)), old(folders)[id].count)]
                         else old(folders)
    {
      if id !in folders { return Ok(false); }
      var clean := Text.Trim(name);
      if clean == "" { return Err(NameRequired); }
      RenameExact(State(), id, clean, nameToken(clean));
      RunOne(State(), RenameFolder(id, clean, nameToken(clean)));
      var done := Batch([RenameFolder(id, clean, nameToken(clean))]);
      if done.Err? { return Err(ToStoreError(done.error)); }
      RenameKeepsIndex(old(State()), id, clean, nameToken(clean));
      r := Ok(true);
    }

    /** The cycle and depth checks of moveFolder. */
    method CheckMove(id: Id, target: Option<Id>) returns (refused: Option<StoreError>)
      requires Forest(folders) && id in folders && Exists(folders, target)
      ensures refused == if id in Path(folders, target) then Some(FolderCycle)
                         else if !Fits(folders, id, target) then Some(FolderDepthExceeded)
                         else None
    {
      var inside := IsDescendant(target, id);
      if target == Some(id) || inside {
        PathStep(folders, id);
        return Some(FolderCycle);
      }
      var targetDepth := 0;
      PathOf(folders, target);
      if target.Some? { targetDepth := FolderDepth(target.value); }
      var height := FolderSubtreeHeight(id);
      if targetDepth + height > MAX_FOLDER_DEPTH { return Some(FolderDepthExceeded); }
      refused := None;
    }

    method MoveFolder(id: Id, targetParentId: Option<Id>) returns (r: Result<(), StoreError>)
      requires Valid()
      modifies this
      ensures Valid() && connections == old(connections)
      ensures r == MoveOutcome(old(folders), id, targetParentId)
      ensures r.Ok? ==> MovedUnder(old(folders), folders, id, targetParentId)
      ensures r.Err? || old(folders)[id].parent == targetParentId ==> State() == old(State())
    {
      if id !in folders { return Err(RecordNotFound); }
      if folders[id].parent == targetParentId {
        assert folders[id].scope == ScopeOf(targetParentId);
        return Ok(());
      }
      if targetParentId.Some? && targetParentId.value !in folders { return Err(RecordNotFound); }
      var refused := CheckMove(id, targetParentId);
      if refused.Some? { return Err(refused.value); }
      r := ApplyMove(id, targetParentId);
    }

    /** The batch of moveFolder, its checks having passed. */
    method ApplyMove(id: Id, target: Option<Id>) returns (r: Result<(), StoreError>)
      requires Valid() && CanMove(folders, id, target) && Fits(folders, id, target) && folders[id].parent != target
      modifies this
      ensures Valid() && connections == old(connections)
      ensures r == if NameTaken(old(folders), id, target) then Err(DuplicateFolderName) else Ok(())
      ensures if r.Ok? then MovedUnder(old(folders), folders, id, target) else State() == old(State())
    {
      var source := folders[id];
      PathStep(folders, id);
      var down := CountStatementsFor(source.parent, -source.count);
      var up := CountStatementsFor(target, source.count);
      var batch := [ReparentFolder(id, target)] + down + up;
      assert batch == MoveBatch(folders, id, target);
      MoveDecided(State(), id, target, batch);
      var done := Batch(batch);
      r := if done.Err? then Err(ToStoreError(done.error)) else Ok(());
      if r.Ok? { RelinkedIsMovedUnder(old(folders), folders, id, target); }
    }

    method DeleteFolderIn(id: Id, mode: DeleteMode) returns (r: Result<(), StoreError>)
      requires Valid()
      modifies this
      ensures Valid()
      ensures r == if id !in old(folders) then Err(RecordNotFound)
                   else if mode == Promote && !PromotedNamesFree(old(folders), id) then Err(DuplicateFolderName)
                   else Ok(())
      ensures r.Err? ==> State() == old(State())
      ensures r.Ok? && mode == Promote ==> HandedOver(old(State()), State(), id)
      ensures r.Ok? && mode == Recursive ==>
                && connections == old(connections) - HostSet(old(folders), old(connections), id)
                && SameShape(old(folders) - Subtree(old(folders), id), folders)
                && |old(connections)| - |connections| == old(folders)[id].count
    {
      if id !in folders { return Err(RecordNotFound); }
      var source := folders[id];
      if mode == Promote {
        PromoteNamesExact(State(), id);
        RunPromote(State(), id);
        var done := Batch(PromoteBatch(id, source.parent));
        if done.Err? { return Err(ToStoreError(done.error)); }
        PromoteKeepsIndex(old(State()), id);
        PromotedIsHandedOver(old(State()), id);
        return Ok(());
      }
      DeleteSubtree(id);
      r := Ok(());
    }

    /** The recursive branch of deleteFolder. */
    method DeleteSubtree(id: Id)
      requires Valid() && id in folders
      modifies this
      ensures Valid()
      ensures connections == old(connections) - HostSet(old(folders), old(connections), id)
      ensures SameShape(old(folders) - Subtree(old(folders), id), folders)
      ensures |old(connections)| - |connections| == old(folders)[id].count
    {
      var source := folders[id];
      var descendants := DescendantRows(id);
      var hosts := CollectHostDeletes(descendants);
      var deepestFirst := SortByDepth(descendants);
      var doomed := CollectFolderDeletes(deepestFirst);
      PathStep(folders, id);
      var counts := CountStatementsFor(source.parent, -source.count);
      RunRemoval(State(), id, descendants, hosts, doomed, counts);
      var done := Batch(hosts + doomed + counts);
      RemovalKeepsIndex(old(State()), id);
    }

    method CollectHostDeletes(rows: seq<DescendantRow>) returns (batch: seq<Statement>)
      ensures batch == DeleteHostsBatch(Ids(rows))
    {
      batch := [];
      for i := 0 to |rows|
        invariant batch == DeleteHostsBatch(Ids(rows)[..i])
      {
        batch := batch + [DeleteConnectionsIn(rows[i].id)];
      }
      assert Ids(rows)[..|rows|] == Ids(rows);
    }

    method CollectFolderDeletes(rows: seq<DescendantRow>) returns (batch: seq<Statement>)
      ensures batch == DeleteFoldersBatch(Ids(rows))
    {
      batch := [];
      for i := 0 to |rows|
        invariant batch == DeleteFoldersBatch(Ids(rows)[..i])
      {
        batch := batch + [DeleteFolder(rows[i].id)];
      }
      assert Ids(rows)[..|rows|] == Ids(rows);
    }
  }

  /** What moveFolder answers, in terms of the tables alone. */
  ghost function MoveOutcome(f: Folders, id: Id, target: Option<Id>): Result<(), StoreError> {
    if id !in f then Err(RecordNotFound)
    else if f[id].parent == target then Ok(())
    else if !Exists(f, target) then Err(RecordNotFound)
    else if id in Path(f, target) then Err(FolderCycle)
    else if !Fits(f, id, target) then Err(FolderDepthExceeded)
    else if NameTaken(f, id, target) then Err(DuplicateFolderName)
    else Ok(())
  }

  /** No child of the folder bears the name of a folder beside it, or its own. */
  ghost predicate PromotedNamesFree(f: Folders, id: Id)
    requires id in f
  {
    forall x, y | x in f && y in f && f[x].parent == Some(id) && f[y].parent == f[id].parent :: f[x].token != f[y].token
  }

  /** `deltas.set(a, (deltas.get(a) ?? 0) + step)` along one chain. */
  method AddAlong(deltas: map<Id, int>, chain: seq<Id>, step: int) returns (out: map<Id, int>)
    requires Distinct(chain)
    ensures forall a :: a in out <==> a in deltas || a in chain
    ensures forall a :: Get(out, a) == Get(deltas, a) + (if a in chain then step else 0)
  {
    out := deltas;
    for i := 0 to |chain|
      invariant forall a :: a in out <==> a in deltas || a in chain[..i]
      invariant forall a :: Get(out, a) == Get(deltas, a) + (if a in chain[..i] then step else 0)
    {
      assert chain[i] !in chain[..i];
      assert chain[..i + 1] == chain[..i] + [chain[i]];
      out := out[chain[i] := Get(out, chain[i]) + step];
    }
  }

  method KeysInOrder(deltas: map<Id, int>) returns (order: seq<Id>)
    ensures Distinct(order) && forall a :: a in deltas <==> a in order
  {
    order := [];
    var left := deltas.Keys;
    while left != {}
      invariant Distinct(order)
      invariant forall a :: a in order ==> a !in left
      invariant forall a :: a in deltas <==> a in order || a in left
      decreases |left|
    {
      var a :| a in left;
      left := left - {a};
      order := order + [a];
    }
  }

  method CollectShifts(order: seq<Id>, deltas: map<Id, int>) returns (batch: seq<Statement>)
    requires forall a :: a in order ==> a in deltas
    ensures batch == DeltaStatements(order, deltas)
  {
    batch := [];
    for i := 0 to |order|
      invariant batch == DeltaStatements(order[..i], deltas)
    {
      assert order[..i + 1][..i] == order[..i];
      if deltas[order[i]] != 0 {
        batch := batch + [AddToCount(order[i], deltas[order[i]])];
      }
    }
    assert order[..|order|] == order;
  }

  // ---- the descendant query ----

  /** Every row is a folder of the subtree, listed once, with its depth below the top. */
  ghost predicate RowsBelow(f: Folders, top: Id, rows: seq<DescendantRow>) {
    && rows != []
    && DistinctIds(rows)
    && (forall i :: 0 <= i < |rows| ==>
          rows[i].id in Subtree(f, top) && rows[i].depth == RelativeDepth(f, top, rows[i].id))
  }

  lemma {:induction false} DistinctFit(ids: seq<Id>, all: set<Id>)
    requires Distinct(ids) && forall x :: x in ids ==> x in all
    ensures |ids| <= |all|
    decreases |ids|
  {
    if ids != [] {
      var n := |ids| - 1;
      DistinctFit(ids[..n], all - {ids[n]});
    }
  }

  lemma RowsFit(f: Folders, top: Id, rows: seq<DescendantRow>)
    requires RowsBelow(f, top, rows)
    ensures |rows| <= |f|
  {
    DistinctFit(Ids(rows), f.Keys);
    assert |f.Keys| == |f|;
  }

  function ChildRows(kids: seq<Id>, depth: int): seq<DescendantRow> {
    seq(|kids|, k requires 0 <= k < |kids| => DescendantRow(kids[k], depth))
  }

  /** The children of the first i rows are in the queue. */
  ghost predicate ClosedUpTo(f: Folders, rows: seq<DescendantRow>, i: nat)
    requires i <= |rows|
  {
    forall x, j :: x in f && 0 <= j < i && f[x].parent == Some(rows[j].id) ==> x in Ids(rows)
  }

  /** Every row but the first is a child of one of the first i rows. */
  ghost predicate FromEarlier(f: Folders, rows: seq<DescendantRow>, i: nat)
    requires i <= |rows|
  {
    forall j :: 0 < j < |rows| ==>
      rows[j].id in f && f[rows[j].id].parent.Some? && f[rows[j].id].parent.value in Ids(rows)[..i]
  }

  ghost predicate AreChildren(f: Folders, kids: seq<Id>, id: Id) {
    Distinct(kids) && forall x :: x in kids <==> x in f && f[x].parent == Some(id)
  }

  lemma IdAt(rows: seq<DescendantRow>, x: Id) returns (j: nat)
    requires x in Ids(rows)
    ensures j < |rows| && rows[j].id == x
  {
    j :| 0 <= j < |rows| && Ids(rows)[j] == x;
  }

  /** A child of the row being passed is not in the queue yet. */
  lemma ChildIsNew(f: Folders, top: Id, rows: seq<DescendantRow>, i: nat, x: Id)
    requires Forest(f) && RowsBelow(f, top, rows) && i < |rows| && rows[0].id == top
    requires FromEarlier(f, rows, i)
    requires x in f && f[x].parent == Some(rows[i].id)
    ensures x !in Ids(rows)
  {
    if x in Ids(rows) {
      var j := IdAt(rows, x);
      if j == 0 {
        TopIsShallowest(f, top, rows[i].id);
        ChildBelow(f, top, x, rows[i].id);
      }
      assert false;
    }
  }

  lemma TopIsShallowest(f: Folders, top: Id, x: Id)
    requires Forest(f) && x in Subtree(f, top)
    ensures RelativeDepth(f, top, x) >= 1 && RelativeDepth(f, top, top) == 1
  {
    PathOf(f, Some(x));
    SplitAt(f, top, x);
  }

  lemma QueueStaysBelow(f: Folders, top: Id, rows: seq<DescendantRow>, i: nat, kids: seq<Id>)
    requires Forest(f) && RowsBelow(f, top, rows) && i < |rows| && rows[0].id == top
    requires FromEarlier(f, rows, i) && AreChildren(f, kids, rows[i].id)
    ensures RowsBelow(f, top, rows + ChildRows(kids, rows[i].depth + 1))
  {
    var out := rows + ChildRows(kids, rows[i].depth + 1);
    forall k | 0 <= k < |kids|
      ensures kids[k] in Subtree(f, top) && RelativeDepth(f, top, kids[k]) == rows[i].depth + 1
      ensures kids[k] !in Ids(rows)
    {
      assert kids[k] in kids;
      ChildBelow(f, top, kids[k], rows[i].id);
      ChildIsNew(f, top, rows, i, kids[k]);
    }
    forall a, b | 0 <= a < b < |out| ensures out[a].id != out[b].id {
      if a < |rows| <= b {
        assert Ids(rows)[a] in Ids(rows);
      }
    }
  }

  lemma QueueIds(rows: seq<DescendantRow>, kids: seq<Id>, depth: int)
    ensures Ids(rows + ChildRows(kids, depth)) == Ids(rows) + kids
  {
  }

  lemma QueueFromEarlier(f: Folders, rows: seq<DescendantRow>, i: nat, kids: seq<Id>, out: seq<DescendantRow>)
    requires i < |rows| && AreChildren(f, kids, rows[i].id) && FromEarlier(f, rows, i)
    requires out == rows + ChildRows(kids, rows[i].depth + 1)
    ensures FromEarlier(f, out, i + 1)
  {
    QueueIds(rows, kids, rows[i].depth + 1);
    assert Ids(out)[..i + 1] == Ids(rows)[..i] + [rows[i].id];
    forall j | 0 < j < |out|
      ensures out[j].id in f && f[out[j].id].parent.Some? && f[out[j].id].parent.value in Ids(out)[..i + 1]
    {
      if j >= |rows| {
        assert out[j].id == kids[j - |rows|] && out[j].id in kids;
      }
    }
  }

  lemma QueueClosed(f: Folders, rows: seq<DescendantRow>, i: nat, kids: seq<Id>, out: seq<DescendantRow>)
    requires i < |rows| && AreChildren(f, kids, rows[i].id) && ClosedUpTo(f, rows, i)
    requires out == rows + ChildRows(kids, rows[i].depth + 1)
    ensures ClosedUpTo(f, out, i + 1)
  {
    QueueIds(rows, kids, rows[i].depth + 1);
    forall x, j | x in f && 0 <= j < i + 1 && f[x].parent == Some(out[j].id) ensures x in Ids(out) {
      if j == i { assert x in kids; } else { assert f[x].parent == Some(rows[j].id); }
    }
  }

  /** A set of rows that holds the top and is closed under children is the whole subtree. */
  lemma ClosedIsSubtree(f: Folders, top: Id, rows: seq<DescendantRow>)
    requires Forest(f) && RowsBelow(f, top, rows) && rows[0].id == top
    requires ClosedUpTo(f, rows, |rows|)
    ensures Enumerates(f, top, rows)
  {
    forall x ensures x in Subtree(f, top) <==> x in Ids(rows) {
      if x in Subtree(f, top) {
        ReachedFromTop(f, top, rows, x, Depth(f, x));
      }
      if x in Ids(rows) {
        var j :| 0 <= j < |rows| && Ids(rows)[j] == x;
        assert rows[j].id in Subtree(f, top);
      }
    }
  }

  lemma {:induction false} ReachedFromTop(f: Folders, top: Id, rows: seq<DescendantRow>, x: Id, n: nat)
    requires Forest(f) && RowsBelow(f, top, rows) && rows[0].id == top
    requires ClosedUpTo(f, rows, |rows|)
    requires x in Subtree(f, top) && n == Depth(f, x)
    ensures x in Ids(rows)
    decreases n
  {
    if x == top {
      assert Ids(rows)[0] == top;
    } else {
      PathStep(f, x);
      PathOf(f, f[x].parent);
      var up := f[x].parent.value;
      ReachedFromTop(f, top, rows, up, n - 1);
      var j :| 0 <= j < |rows| && Ids(rows)[j] == up;
    }
  }
}
