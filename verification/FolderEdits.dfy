/** Creating and renaming a folder. */
module FolderEdits {
  import opened Common
  import opened FolderTables
  import opened FolderPaths
  import opened FolderCounts

  function WithLeaf(f: Folders, id: Id, parent: Option<Id>, name: string, token: string): Folders {
    f[id := FolderRow(parent, ParentScope(parent), name, token, 0)]
  }

  lemma ChainBesideLeaf(f: Folders, id: Id, row: FolderRow, at: Option<Id>)
    requires Forest(f) && id !in f && Exists(f, at)
    ensures IsPath(f[id := row], at, Path(f, at))
    ensures Path(f[id := row], at) == Path(f, at)
  {
    PathOf(f, at);
    PathFrame(f, f[id := row], at, Path(f, at));
    PathIs(f[id := row], at, Path(f, at));
  }

  /** A new leaf keeps the forest exactly when its parent is not already at the depth limit. */
  lemma LeafDepthExact(f: Folders, id: Id, parent: Option<Id>, name: string, token: string)
    requires Forest(f) && id !in f && Exists(f, parent)
    ensures Forest(WithLeaf(f, id, parent, name, token)) <==> |Path(f, parent)| < MAX_FOLDER_DEPTH
  {
    var g := WithLeaf(f, id, parent, name, token);
    var q := [id] + Path(f, parent);
    forall x | x in f ensures IsPath(g, Some(x), Path(g, Some(x))) {
      ChainBesideLeaf(f, id, g[id], Some(x));
    }
    ChainBesideLeaf(f, id, g[id], parent);
    assert q[1..] == Path(f, parent);
    assert IsPath(g, Some(id), q);
    if |q| <= MAX_FOLDER_DEPTH {
      PathIs(g, Some(id), q);
    } else if IsPath(g, Some(id), Path(g, Some(id))) {
      PathUnique(g, Some(id), q, Path(g, Some(id)));
      ChainLength(g, Some(id), MAX_FOLDER_DEPTH);
      assert false;
    }
  }

  lemma LeafKeepsIndex(t: Tables, id: Id, parent: Option<Id>, name: string, token: string)
    requires Consistent(t) && id !in t.folders && id != ROOT_SCOPE && Exists(t.folders, parent)
    requires |Path(t.folders, parent)| < MAX_FOLDER_DEPTH
    requires UniqueNames(WithLeaf(t.folders, id, parent, name, token))
    ensures Consistent(t.(folders := WithLeaf(t.folders, id, parent, name, token)))
  {
    var f, c := t.folders, t.connections;
    var g := WithLeaf(f, id, parent, name, token);
    LeafDepthExact(f, id, parent, name, token);
    forall k, a | k in c ensures a in Path(g, c[k].folder) <==> a in Path(f, c[k].folder) {
      ChainBesideLeaf(f, id, g[id], c[k].folder);
    }
    forall x | x in f ensures g[x].count == Hosts(g, c, x) {
      assert HostSet(g, c, x) == HostSet(f, c, x);
    }
    forall k | k in c ensures id !in Path(f, c[k].folder) {
      PathOf(f, c[k].folder);
    }
    assert HostSet(g, c, id) == {};
  }

  function Renamed(f: Folders, id: Id, name: string, token: string): Folders
    requires id in f
  {
    f[id := f[id].(name := name, token := token)]
  }

  lemma RenameKeepsIndex(t: Tables, id: Id, name: string, token: string)
    requires Consistent(t) && id in t.folders
    requires UniqueNames(Renamed(t.folders, id, name, token))
    ensures Consistent(t.(folders := Renamed(t.folders, id, name, token)))
  {
    var f, c := t.folders, t.connections;
    var g := Renamed(f, id, name, token);
    SameParentsPaths(f, g);
    forall x | x in g ensures g[x].count == Hosts(g, c, x) {
      SameParentsHosts(f, g, c, x);
    }
  }

  lemma RenameExact(t: Tables, id: Id, name: string, token: string)
    requires Consistent(t) && id in t.folders
    ensures UniqueNames(Renamed(t.folders, id, name, token)) <==>
            (forall x | x in t.folders && x != id && t.folders[x].parent == t.folders[id].parent ::
               t.folders[x].token != token)
  {
    var f, g := t.folders, Renamed(t.folders, id, name, token);
    forall x | x in f ensures f[x].scope == f[id].scope <==> f[x].parent == f[id].parent {
      PathStep(f, x);
      PathStep(f, id);
    }
    OneRowNames(f, id, g[id]);
  }

  /** The unique index refuses a name exactly when a sibling bears it. */
  lemma LeafNameExact(t: Tables, id: Id, parent: Option<Id>, name: string, token: string)
    requires Consistent(t) && id !in t.folders && Exists(t.folders, parent)
    ensures UniqueNames(WithLeaf(t.folders, id, parent, name, token)) <==>
            (forall x | x in t.folders && t.folders[x].parent == parent :: t.folders[x].token != token)
  {
    var f, g := t.folders, WithLeaf(t.folders, id, parent, name, token);
    OneRowNames(f, id, g[id]);
    forall x | x in f ensures f[x].scope == ParentScope(parent) <==> f[x].parent == parent {
      PathStep(f, x);
    }
  }
}
