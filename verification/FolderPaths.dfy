/**
 The shape of the folder tree: the chain of ancestors that the recursive query
 of `ancestorIds` walks, and the sets of folders and hosts below a folder.
 */
module FolderPaths {
  import opened Common
  import opened FolderTables

  /** p lists the folders from `at` up to a root, `at` first. */
  ghost predicate IsPath(f: Folders, at: Option<Id>, p: seq<Id>)
    decreases |p|
  {
    match at
    case None => p == []
    case Some(x) => p != [] && p[0] == x && x in f && IsPath(f, f[x].parent, p[1..])
  }

  function Chain(f: Folders, at: Option<Id>, n: nat): seq<Id>
    decreases n, at
  {
    if n == 0 || at.None? || at.value !in f then [] else [at.value] + Chain(f, f[at.value].parent, n - 1)
  }

  /** The ancestors of `at`, itself included: at most MAX_FOLDER_DEPTH of them in a forest. */
  function Path(f: Folders, at: Option<Id>): seq<Id> {
    Chain(f, at, MAX_FOLDER_DEPTH)
  }

  /** Every folder reaches a root within MAX_FOLDER_DEPTH steps: parents exist, no cycles, depth at most 8. */
  ghost predicate Forest(f: Folders) {
    forall x :: x in f ==> IsPath(f, Some(x), Path(f, Some(x)))
  }

  function Depth(f: Folders, x: Id): nat {
    |Path(f, Some(x))|
  }

  predicate Under(f: Folders, top: Id, x: Id) {
    top in Path(f, Some(x))
  }

  function Subtree(f: Folders, top: Id): set<Id> {
    set x | x in f && Under(f, top, x)
  }

  /** The connections whose folder chain passes through `top`. */
  function HostSet(f: Folders, c: Connections, top: Id): set<Id> {
    set k | k in c && top in Path(f, c[k].folder)
  }

  function Hosts(f: Folders, c: Connections, top: Id): nat {
    |HostSet(f, c, top)|
  }

  // ---- paths ----

  lemma {:induction false} ChainOfPath(f: Folders, at: Option<Id>, p: seq<Id>, n: nat)
    requires IsPath(f, at, p) && |p| <= n
    ensures Chain(f, at, n) == p
    decreases n
  {
    if at.Some? {
      ChainOfPath(f, f[at.value].parent, p[1..], n - 1);
    }
  }

  lemma PathIs(f: Folders, at: Option<Id>, p: seq<Id>)
    requires IsPath(f, at, p) && |p| <= MAX_FOLDER_DEPTH
    ensures Path(f, at) == p
  {
    ChainOfPath(f, at, p, MAX_FOLDER_DEPTH);
  }

  lemma {:induction false} ChainLength(f: Folders, at: Option<Id>, n: nat)
    ensures |Chain(f, at, n)| <= n
    ensures forall a :: a in Chain(f, at, n) ==> a in f
    decreases n
  {
    if n > 0 && at.Some? && at.value in f {
      ChainLength(f, f[at.value].parent, n - 1);
    }
  }

  lemma PathOf(f: Folders, at: Option<Id>)
    requires Forest(f) && Exists(f, at)
    ensures IsPath(f, at, Path(f, at))
    ensures |Path(f, at)| <= MAX_FOLDER_DEPTH
    ensures forall a :: a in Path(f, at) ==> a in f
    ensures at.None? ==> Path(f, at) == []
  {
    ChainLength(f, at, MAX_FOLDER_DEPTH);
  }

  /** One step of the recursive query: a folder's chain is the folder, then its parent's chain. */
  lemma PathStep(f: Folders, x: Id)
    requires Forest(f) && x in f
    ensures Exists(f, f[x].parent)
    ensures Path(f, Some(x)) == [x] + Path(f, f[x].parent)
  {
    PathOf(f, Some(x));
    var p := Path(f, Some(x));
    PathIs(f, f[x].parent, p[1..]);
    assert p == [x] + p[1..];
    if f[x].parent.Some? {
      assert p[1..][0] == f[x].parent.value;
    }
  }

  lemma {:induction false} PathSuffix(f: Folders, at: Option<Id>, p: seq<Id>, k: nat)
    requires IsPath(f, at, p) && k < |p|
    ensures IsPath(f, Some(p[k]), p[k..])
    decreases k
  {
    if k == 0 {
      assert p[0..] == p;
    } else {
      PathSuffix(f, f[at.value].parent, p[1..], k - 1);
      assert p[1..][k - 1..] == p[k..];
    }
  }

  lemma {:induction false} PathUnique(f: Folders, at: Option<Id>, p: seq<Id>, q: seq<Id>)
    requires IsPath(f, at, p) && IsPath(f, at, q)
    ensures p == q
    decreases |p|
  {
    if at.Some? {
      PathUnique(f, f[at.value].parent, p[1..], q[1..]);
      assert p == [p[0]] + p[1..] && q == [q[0]] + q[1..];
    }
  }

  /** No folder is its own ancestor: a chain never repeats a folder. */
  lemma {:induction false} PathDistinct(f: Folders, at: Option<Id>, p: seq<Id>)
    requires IsPath(f, at, p)
    ensures forall i, j :: 0 <= i < j < |p| ==> p[i] != p[j]
  {
    forall i, j | 0 <= i < j < |p| ensures p[i] != p[j] {
      if p[i] == p[j] {
        PathSuffix(f, at, p, i);
        PathSuffix(f, at, p, j);
        PathUnique(f, Some(p[i]), p[i..], p[j..]);
        assert false;
      }
    }
  }

  /** The chain of an ancestor is the tail of the chain. */
  lemma PathTail(f: Folders, at: Option<Id>, k: nat)
    requires Forest(f) && Exists(f, at) && k < |Path(f, at)|
    ensures Path(f, Some(Path(f, at)[k])) == Path(f, at)[k..]
  {
    PathOf(f, at);
    PathSuffix(f, at, Path(f, at), k);
    PathIs(f, Some(Path(f, at)[k]), Path(f, at)[k..]);
  }

  lemma UnderTransitive(f: Folders, a: Id, b: Id, at: Option<Id>)
    requires Forest(f) && Exists(f, at)
    requires b in Path(f, at) && Under(f, a, b)
    ensures a in Path(f, at)
  {
    var k :| 0 <= k < |Path(f, at)| && Path(f, at)[k] == b;
    PathTail(f, at, k);
    assert a in Path(f, at)[k..];
  }

  // ---- the same parents give the same chains ----

  lemma {:induction false} PathFrame(f: Folders, g: Folders, at: Option<Id>, p: seq<Id>)
    requires IsPath(f, at, p)
    requires forall x :: x in p ==> x in f && x in g && g[x].parent == f[x].parent
    ensures IsPath(g, at, p)
    decreases |p|
  {
    if at.Some? {
      PathFrame(f, g, f[at.value].parent, p[1..]);
    }
  }

  ghost predicate SameParents(f: Folders, g: Folders) {
    f.Keys == g.Keys && forall x :: x in f ==> g[x].parent == f[x].parent
  }

  lemma {:induction false} SameParentsChain(f: Folders, g: Folders, at: Option<Id>, n: nat)
    requires SameParents(f, g)
    ensures Chain(g, at, n) == Chain(f, at, n)
    decreases n
  {
    if n > 0 && at.Some? && at.value in f {
      SameParentsChain(f, g, f[at.value].parent, n - 1);
    }
  }

  lemma SameParentsPaths(f: Folders, g: Folders)
    requires SameParents(f, g)
    ensures forall at :: Path(g, at) == Path(f, at)
    ensures Forest(f) ==> Forest(g)
  {
    forall at ensures Path(g, at) == Path(f, at) {
      SameParentsChain(f, g, at, MAX_FOLDER_DEPTH);
    }
    if Forest(f) {
      forall x | x in g ensures IsPath(g, Some(x), Path(g, Some(x))) {
        PathOf(f, Some(x));
        PathFrame(f, g, Some(x), Path(f, Some(x)));
      }
    }
  }

  lemma SameParentsHosts(f: Folders, g: Folders, c: Connections, a: Id)
    requires SameParents(f, g)
    ensures HostSet(g, c, a) == HostSet(f, c, a)
  {
    SameParentsPaths(f, g);
  }
}
