/**
 Deleting a folder: `promote` hands its children and connections to its parent,
 `recursive` removes the whole subtree. Both run as one batch under ON DELETE RESTRICT.
 */
module FolderDeletes {
  import opened Common
  import opened FolderTables
  import opened FolderPaths
  import opened FolderCounts
  import opened FolderMoves

  // ---- promote ----

  function PromoteBatch(id: Id, parent: Option<Id>): seq<Statement> {
    [PromoteConnections(id, parent), ReparentChildren(id, parent), DeleteFolder(id)]
  }

  function Promoted(t: Tables, id: Id): Tables
    requires id in t.folders
  {
    Tables(Adopted(t.folders, id, t.folders[id].parent) - {id},
           Moved(t.connections, DirectHosts(t.connections, id), t.folders[id].parent))
  }

  lemma ParentIsAnother(f: Folders, id: Id)
    requires Forest(f) && id in f
    ensures Exists(f, f[id].parent) && f[id].parent != Some(id)
  {
    PathStep(f, id);
    NotAboveSelf(f, id);
  }

  lemma PromoteHosts(t: Tables, id: Id, parent: Option<Id>)
    requires Exists(t.folders, parent)
    ensures Run(t, PromoteConnections(id, parent)) ==
            Ok(t.(connections := Moved(t.connections, DirectHosts(t.connections, id), parent)))
  {
  }

  lemma PromoteChildren(t: Tables, id: Id, parent: Option<Id>)
    requires Exists(t.folders, parent)
    ensures Run(t, ReparentChildren(id, parent)) == CheckNames(t.(folders := Adopted(t.folders, id, parent)))
  {
  }

  /** With its connections and children handed over, nothing refers to the folder any more. */
  lemma DeleteEmptied(f: Folders, c: Connections, id: Id, parent: Option<Id>)
    requires parent != Some(id)
    ensures var t := Tables(Adopted(f, id, parent), Moved(c, DirectHosts(c, id), parent));
            Run(t, DeleteFolder(id)) == Ok(t.(folders := t.folders - {id}))
  {
    var g, d := Adopted(f, id, parent), Moved(c, DirectHosts(c, id), parent);
    assert forall x :: x in g ==> g[x].parent != Some(id);
    assert forall k :: k in d ==> d[k].folder != Some(id);
    assert !Referenced(Tables(g, d), id);
  }

  lemma RunPromote(t: Tables, id: Id)
    requires Consistent(t) && id in t.folders
    ensures RunAll(t, PromoteBatch(id, t.folders[id].parent)) ==
            if UniqueNames(Adopted(t.folders, id, t.folders[id].parent)) then Ok(Promoted(t, id)) else Err(UniqueFailed)
  {
    var parent := t.folders[id].parent;
    var first, second, third := PromoteConnections(id, parent), ReparentChildren(id, parent), DeleteFolder(id);
    var c := Moved(t.connections, DirectHosts(t.connections, id), parent);
    var u := t.(connections := c);
    var v := Tables(Adopted(t.folders, id, parent), c);
    ParentIsAnother(t.folders, id);
    PromoteHosts(t, id, parent);
    PromoteChildren(u, id, parent);
    DeleteEmptied(t.folders, t.connections, id, parent);
    RunOne(t, first);
    RunAllThen(t, [first], u, [second, third]);
    assert PromoteBatch(id, parent) == [first] + [second, third];
    assert [second, third] == [second] + [third];
    RunOne(u, second);
    if UniqueNames(v.folders) {
      RunAllThen(u, [second], v, [third]);
      RunOne(v, third);
    } else {
      RunAllFails(u, [second], [third]);
    }
  }

  /** The promote is refused exactly when a child has the name of a folder beside the deleted one, or of the deleted one itself. */
  lemma PromoteNamesExact(t: Tables, id: Id)
    requires Consistent(t) && id in t.folders
    ensures UniqueNames(Adopted(t.folders, id, t.folders[id].parent)) <==>
            (forall x, y | x in t.folders && y in t.folders
                           && t.folders[x].parent == Some(id) && t.folders[y].parent == t.folders[id].parent ::
                           t.folders[x].token != t.folders[y].token)
  {
    var f, parent := t.folders, t.folders[id].parent;
    var g := Adopted(f, id, parent);
    ParentIsAnother(f, id);
    forall x | x in f
      ensures g[x].scope == ParentScope(g[x].parent) && g[x].token == f[x].token && Exists(f, g[x].parent)
    {
      PathStep(f, x);
    }
    if UniqueNames(g) {
      forall x, y | x in f && y in f && f[x].parent == Some(id) && f[y].parent == parent
        ensures f[x].token != f[y].token
      {
        assert g[x].scope == g[y].scope;
      }
    } else {
      var x, y :| x in g && y in g && x != y && g[x].scope == g[y].scope && g[x].token == g[y].token;
      ScopeNamesParent(f, g[x].parent, g[y].parent);
      if f[x].parent == Some(id) {
        assert f[y].parent != Some(id);
      } else {
        assert f[y].parent == Some(id);
      }
    }
  }

  lemma ScopeNamesParent(f: Folders, a: Option<Id>, b: Option<Id>)
    requires ScopesMatch(f) && Exists(f, a) && Exists(f, b) && ParentScope(a) == ParentScope(b)
    ensures a == b
  {
  }

  /** With one folder spliced out of it, a chain is still a chain. */
  lemma {:induction false} SkipFolder(f: Folders, g: Folders, id: Id, at: Option<Id>, p: seq<Id>) returns (q: seq<Id>)
    requires id in f && g == Adopted(f, id, f[id].parent) - {id}
    requires IsPath(f, at, p) && at != Some(id)
    requires forall i, j :: 0 <= i < j < |p| ==> p[i] != p[j]
    ensures IsPath(g, at, q) && |q| <= |p|
    ensures forall a :: a in q <==> a in p && a != id
    decreases |p|
  {
    if at.None? {
      q := [];
    } else {
      var up := f[at.value].parent;
      if up == Some(id) {
        var top := f[id].parent;
        assert p == [at.value] + ([id] + p[2..]);
        assert p[1..][1..] == p[2..];
        q := p[2..];
        assert id !in q && IsPath(f, top, q);
        forall x | x in q ensures x in g && g[x].parent == f[x].parent {
          AvoidsChildren(f, id, top, q, x);
        }
        PathFrame(f, g, top, q);
        q := [at.value] + q;
      } else {
        q := SkipFolder(f, g, id, up, p[1..]);
        assert p == [at.value] + p[1..];
        q := [at.value] + q;
      }
      assert q[1..] == q[1..];
    }
  }

  /** A chain that avoids a folder avoids its children. */
  lemma {:induction false} AvoidsChildren(f: Folders, id: Id, at: Option<Id>, p: seq<Id>, x: Id)
    requires IsPath(f, at, p) && id !in p && x in p
    ensures x in f && f[x].parent != Some(id)
    decreases |p|
  {
    if x == p[0] {
      assert p[1..] == [] || p[1..][0] in p;
    } else {
      AvoidsChildren(f, id, f[at.value].parent, p[1..], x);
    }
  }

  /** After a promote, every other folder is above exactly the same folders as before. */
  lemma ChainAfterPromote(t: Tables, id: Id, at: Option<Id>)
    requires Consistent(t) && id in t.folders && Exists(t.folders, at) && at != Some(id)
    ensures IsPath(Promoted(t, id).folders, at, Path(Promoted(t, id).folders, at))
    ensures forall a :: a in Path(Promoted(t, id).folders, at) <==> a in Path(t.folders, at) && a != id
  {
    var f, g := t.folders, Promoted(t, id).folders;
    PathOf(f, at);
    PathDistinct(f, at, Path(f, at));
    var q := SkipFolder(f, g, id, at, Path(f, at));
    PathIs(g, at, q);
  }

  lemma HostsAfterPromote(t: Tables, id: Id, a: Id)
    requires Consistent(t) && id in t.folders && a in t.folders && a != id
    ensures HostSet(Promoted(t, id).folders, Promoted(t, id).connections, a) == HostSet(t.folders, t.connections, a)
  {
    var f, c, u := t.folders, t.connections, Promoted(t, id);
    ParentIsAnother(f, id);
    forall k | k in c
      ensures a in Path(u.folders, u.connections[k].folder) <==> a in Path(f, c[k].folder)
    {
      if c[k].folder == Some(id) {
        PathStep(f, id);
        ChainAfterPromote(t, id, f[id].parent);
      } else {
        ChainAfterPromote(t, id, c[k].folder);
      }
    }
  }

  /** A successful promote keeps the invariant, every connection and the count of every other folder. */
  lemma PromoteKeepsIndex(t: Tables, id: Id)
    requires Consistent(t) && id in t.folders
    requires UniqueNames(Adopted(t.folders, id, t.folders[id].parent))
    ensures Consistent(Promoted(t, id))
    ensures Promoted(t, id).folders.Keys == t.folders.Keys - {id}
    ensures Promoted(t, id).connections.Keys == t.connections.Keys
    ensures forall x :: x in t.folders && x != id ==> Promoted(t, id).folders[x].count == t.folders[x].count
    ensures forall k :: k in t.connections ==> Promoted(t, id).connections[k].payload == t.connections[k].payload
  {
    var f, c, u := t.folders, t.connections, Promoted(t, id);
    PromoteKeepsRows(t, id);
    forall x | x in u.folders
      ensures IsPath(u.folders, Some(x), Path(u.folders, Some(x)))
      ensures u.folders[x].count == Hosts(u.folders, u.connections, x)
    {
      ChainAfterPromote(t, id, Some(x));
      HostsAfterPromote(t, id, x);
    }
  }

  lemma PromoteKeepsRows(t: Tables, id: Id)
    requires Consistent(t) && id in t.folders
    requires UniqueNames(Adopted(t.folders, id, t.folders[id].parent))
    ensures ScopesMatch(Promoted(t, id).folders) && UniqueNames(Promoted(t, id).folders)
    ensures Linked(Promoted(t, id).folders, Promoted(t, id).connections)
    ensures forall x :: x in t.folders && x != id ==> Promoted(t, id).folders[x].count == t.folders[x].count
  {
    ParentIsAnother(t.folders, id);
    AdoptedRows(t.folders, id, t.folders[id].parent);
    FewerNames(Adopted(t.folders, id, t.folders[id].parent), id);
    var f, c, parent := t.folders, t.connections, t.folders[id].parent;
    forall k | k in c ensures Exists(Promoted(t, id).folders, Promoted(t, id).connections[k].folder) {
      assert Exists(f, c[k].folder);
    }
  }

  lemma AdoptedRows(f: Folders, id: Id, parent: Option<Id>)
    requires ScopesMatch(f)
    ensures ScopesMatch(Adopted(f, id, parent) - {id})
    ensures forall x :: x in f ==> Adopted(f, id, parent)[x].count == f[x].count
  {
  }

  lemma FewerNames(f: Folders, id: Id)
    requires UniqueNames(f)
    ensures UniqueNames(f - {id})
  {
  }
}
