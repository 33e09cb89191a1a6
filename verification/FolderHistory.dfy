/** What holds of the store after any sequence of operations, and two facts its contracts rest on. */
module FolderHistory {
  import opened Common
  import opened FolderTables
  import opened FolderPaths
  import opened FolderCounts
  import opened FolderDeletes
  import opened FolderRemoval
  import opened FolderStore

  /** The counts are no freedom: shape and connections determine them. */
  lemma CountsAreDetermined(t: Tables, u: Tables)
    requires Consistent(t) && Consistent(u)
    requires SameShape(t.folders, u.folders) && t.connections == u.connections
    ensures t == u
  {
    ShapeKeepsStructure(t.folders, u.folders, t.connections);
    forall x | x in t.folders ensures t.folders[x] == u.folders[x] {
      assert Hosts(u.folders, u.connections, x) == Hosts(t.folders, t.connections, x);
    }
    assert t.folders == u.folders;
  }

  // ---- promote and names ----

  ghost predicate OwnNameBelow(f: Folders, id: Id)
    requires id in f
  {
    exists x :: x in f && f[x].parent == Some(id) && f[x].token == f[id].token
  }

  /**
   A promote is refused although its result would have unique names exactly when a child bears
   the name of the folder that is about to go: the child moves beside it before it is deleted.
   */
  lemma PromoteRefusedExactly(t: Tables, id: Id)
    requires Consistent(t) && id in t.folders
    ensures UniqueNames(Adopted(t.folders, id, t.folders[id].parent))
            <==> UniqueNames(Promoted(t, id).folders) && !OwnNameBelow(t.folders, id)
  {
    var f, g := t.folders, Adopted(t.folders, id, t.folders[id].parent);
    var h := Promoted(t, id).folders;
    ParentIsAnother(f, id);
    PromoteNamesExact(t, id);
    forall x | x in f ensures x in g && g[x].token == f[x].token && (x != id ==> x in h && h[x] == g[x]) {}
    assert g[id] == f[id];
    if UniqueNames(g) {
      FewerNames(g, id);
    } else if UniqueNames(h) {
      var x, y :| x in g && y in g && x != y && g[x].scope == g[y].scope && g[x].token == g[y].token;
      assert x == id || y == id;
      var z := if x == id then y else x;
      OnlyChildrenMeet(f, id, z);
    }
  }

  /** Beside the folder itself its own name can only come from one of its children. */
  lemma OnlyChildrenMeet(f: Folders, id: Id, z: Id)
    requires Forest(f) && ScopesMatch(f) && UniqueNames(f) && id in f && z in f && z != id
    requires var g := Adopted(f, id, f[id].parent); g[z].scope == f[id].scope && g[z].token == f[id].token
    ensures f[z].parent == Some(id) && f[z].token == f[id].token
  {
  }

  /** A folder and its only child with the same name: the promote fails, though nothing would clash afterwards. */
  lemma PromoteRefusalExample()
    ensures var t := Tables(
              map["a" := FolderRow(None, ROOT_SCOPE, "n", "n", 0), "b" := FolderRow(Some("a"), "a", "n", "n", 0)], map[]);
            && Consistent(t)
            && UniqueNames(Promoted(t, "a").folders)
            && RunAll(t, PromoteBatch("a", None)) == Err(UniqueFailed)
  {
    var f: Folders := map["a" := FolderRow(None, ROOT_SCOPE, "n", "n", 0), "b" := FolderRow(Some("a"), "a", "n", "n", 0)];
    var t := Tables(f, map[]);
    assert IsPath(f, None, []);
    assert IsPath(f, Some("a"), ["a"]) by { assert ["a"][1..] == []; }
    PathIs(f, Some("a"), ["a"]);
    assert IsPath(f, Some("b"), ["b", "a"]) by { assert ["b", "a"][1..] == ["a"]; }
    PathIs(f, Some("b"), ["b", "a"]);
    assert HostSet(f, map[], "a") == {} && HostSet(f, map[], "b") == {};
    assert Consistent(t);
    assert OwnNameBelow(f, "a") by { assert "b" in f; }
    PromoteRefusedExactly(t, "a");
    RunPromote(t, "a");
    assert Promoted(t, "a").folders.Keys == {"b"};
  }

  // ---- every history ----

  datatype Operation =
    | CreateConnection(id: Id, input: NewConnection, folder: Option<Id>)
    | DeleteConnection(id: Id)
    | MoveConnections(ids: seq<Id>, folder: Option<Id>)
    | CreateFolder(id: Id, name: string, parent: Option<Id>)
    | RenameFolder(id: Id, name: string)
    | MoveFolder(id: Id, parent: Option<Id>)
    | DeleteFolder(id: Id, mode: DeleteMode)

  /** Identifiers are drawn at random; one that is taken is never drawn. */
  predicate Drawn(op: Operation, folders: Folders, connections: Connections) {
    && (op.CreateConnection? ==> op.id !in connections)
    && (op.CreateFolder? ==> op.id !in folders && op.id != ROOT_SCOPE)
  }

  method Perform(store: D1ConnectionStore, op: Operation)
    requires store.Valid() && Drawn(op, store.folders, store.connections)
    modifies store
    ensures store.Valid()
  {
    match op {
      case CreateConnection(id, input, folder) => var _ := store.CreateConnection(id, input, folder);
      case DeleteConnection(id) => var _ := store.DeleteConnectionById(id);
      case MoveConnections(ids, folder) => var _ := store.MoveConnections(ids, folder);
      case CreateFolder(id, name, parent) => var _ := store.CreateFolder(id, name, parent);
      case RenameFolder(id, name) => var _ := store.RenameFolderTo(id, name);
      case MoveFolder(id, parent) => var _ := store.MoveFolder(id, parent);
      case DeleteFolder(id, mode) => var _ := store.DeleteFolderIn(id, mode);
    }
  }

  /**
   After any operations from the empty store, successful or refused: every cached count is the number of
   connections below the folder, every folder reaches a root within 8 steps, names are unique in their scope.
   */
  method History(nameToken: string -> string, ops: seq<Operation>) returns (store: D1ConnectionStore)
    ensures store.Valid()
    ensures forall x :: x in store.folders ==> store.folders[x].count == Hosts(store.folders, store.connections, x)
    ensures forall x :: x in store.folders ==> 1 <= Depth(store.folders, x) <= 8
    ensures UniqueNames(store.folders) && Linked(store.folders, store.connections)
  {
    store := new D1ConnectionStore(nameToken);
    for i := 0 to |ops|
      invariant fresh(store) && store.Valid()
    {
      if Drawn(ops[i], store.folders, store.connections) { Perform(store, ops[i]); }
    }
    forall x | x in store.folders ensures 1 <= Depth(store.folders, x) <= 8 {
      PathOf(store.folders, Some(x));
      PathStep(store.folders, x);
    }
  }
}
