/**
 Moving a subtree under another parent: what happens to every chain, to the depth
 bound and to every count.
 */
module FolderMoves {
  import opened Common
  import opened FolderTables
  import opened FolderPaths
  import opened FolderCounts

  function Relinked(f: Folders, id: Id, target: Option<Id>): Folders
    requires id in f
  {
    f[id := Reparent(f[id], target)]
  }

  /** Depth of x counted from the folder `top` (1 for `top` itself), as descendantRows numbers it. */
  function RelativeDepth(f: Folders, top: Id, x: Id): int {
    Depth(f, x) - Depth(f, top) + 1
  }

  /** A legal target: it exists and is not the moved folder or a folder below it. */
  predicate CanMove(f: Folders, id: Id, target: Option<Id>) {
    id in f && Exists(f, target) && id !in Path(f, target)
  }

  /** Every folder of the moved subtree still fits the depth limit below the target. */
  ghost predicate Fits(f: Folders, id: Id, target: Option<Id>) {
    forall x :: x in Subtree(f, id) ==> RelativeDepth(f, id, x) + |Path(f, target)| <= MAX_FOLDER_DEPTH
  }

  // ---- chains ----

  /** A chain through `id` is the part down to `id`, then the chain of the parent of `id`. */
  lemma SplitAt(f: Folders, id: Id, x: Id)
    requires Forest(f) && id in f && x in f && Under(f, id, x)
    ensures 1 <= RelativeDepth(f, id, x) <= Depth(f, x)
    ensures var r := RelativeDepth(f, id, x);
            && Path(f, Some(x))[r - 1] == id
            && Path(f, Some(x))[..r] + Path(f, f[id].parent) == Path(f, Some(x))
            && (forall a :: a in Path(f, Some(x))[..r] ==> Under(f, id, a))
            && (forall i :: 0 <= i < r - 1 ==> Path(f, Some(x))[i] != id)
  {
    var p := Path(f, Some(x));
    PathOf(f, Some(x));
    PathDistinct(f, Some(x), p);
    var k :| 0 <= k < |p| && p[k] == id;
    PathTail(f, Some(x), k);
    PathStep(f, id);
    assert RelativeDepth(f, id, x) == k + 1;
    assert p == p[..k + 1] + p[k..][1..];
    forall a | a in p[..k + 1] ensures Under(f, id, a) {
      var i :| 0 <= i < k + 1 && p[i] == a;
      PathTail(f, Some(x), i);
      assert p[i..][k - i] == id;
    }
  }

  lemma {:induction false} Splice(f: Folders, id: Id, target: Option<Id>, at: Option<Id>, p: seq<Id>, k: nat, q: seq<Id>)
    requires id in f && IsPath(f, at, p) && k < |p| && p[k] == id
    requires forall i :: 0 <= i < k ==> p[i] != id
    requires IsPath(Relinked(f, id, target), target, q)
    ensures IsPath(Relinked(f, id, target), at, p[..k + 1] + q)
    decreases k
  {
    var s := p[..k + 1] + q;
    if k == 0 {
      assert s[1..] == q;
    } else {
      Splice(f, id, target, f[at.value].parent, p[1..], k - 1, q);
      assert s[1..] == p[1..][..k] + q;
    }
  }

  /** Folders outside the moved subtree keep their chains. */
  lemma ChainOutside(f: Folders, id: Id, target: Option<Id>, at: Option<Id>)
    requires Forest(f) && id in f && Exists(f, at) && id !in Path(f, at)
    ensures IsPath(Relinked(f, id, target), at, Path(f, at))
    ensures Path(Relinked(f, id, target), at) == Path(f, at)
  {
    PathOf(f, at);
    PathFrame(f, Relinked(f, id, target), at, Path(f, at));
    PathIs(Relinked(f, id, target), at, Path(f, at));
  }

  /** Folders inside it keep the part up to the moved folder and continue with the target's chain. */
  lemma ChainInside(f: Folders, id: Id, target: Option<Id>, x: Id)
    requires Forest(f) && CanMove(f, id, target) && x in f && Under(f, id, x)
    ensures 1 <= RelativeDepth(f, id, x) <= Depth(f, x)
    ensures IsPath(Relinked(f, id, target), Some(x),
                   Path(f, Some(x))[..RelativeDepth(f, id, x)] + Path(f, target))
  {
    SplitAt(f, id, x);
    PathOf(f, Some(x));
    ChainOutside(f, id, target, target);
    Splice(f, id, target, Some(x), Path(f, Some(x)), RelativeDepth(f, id, x) - 1, Path(f, target));
  }

  /** The depth check of moveFolder is exact: the moved tree is a forest of depth at most 8 iff it passes. */
  lemma MoveDepthExact(f: Folders, id: Id, target: Option<Id>)
    requires Forest(f) && CanMove(f, id, target)
    ensures Forest(Relinked(f, id, target)) <==> Fits(f, id, target)
  {
    var g := Relinked(f, id, target);
    forall x | x in f
      ensures IsPath(g, Some(x), Path(g, Some(x))) <==>
              (Under(f, id, x) ==> RelativeDepth(f, id, x) + |Path(f, target)| <= MAX_FOLDER_DEPTH)
    {
      if Under(f, id, x) {
        ChainInside(f, id, target, x);
        var q := Path(f, Some(x))[..RelativeDepth(f, id, x)] + Path(f, target);
        if |q| <= MAX_FOLDER_DEPTH {
          PathIs(g, Some(x), q);
        } else if IsPath(g, Some(x), Path(g, Some(x))) {
          PathUnique(g, Some(x), q, Path(g, Some(x)));
          ChainLength(g, Some(x), MAX_FOLDER_DEPTH);
          assert false;
        }
      } else {
        ChainOutside(f, id, target, Some(x));
      }
    }
  }

  lemma PathInside(f: Folders, id: Id, target: Option<Id>, x: Id)
    requires Forest(f) && CanMove(f, id, target) && Fits(f, id, target) && x in f && Under(f, id, x)
    ensures 1 <= RelativeDepth(f, id, x) <= Depth(f, x)
    ensures Path(Relinked(f, id, target), Some(x)) ==
            Path(f, Some(x))[..RelativeDepth(f, id, x)] + Path(f, target)
  {
    ChainInside(f, id, target, x);
    assert x in Subtree(f, id);
    PathIs(Relinked(f, id, target), Some(x),
           Path(f, Some(x))[..RelativeDepth(f, id, x)] + Path(f, target));
  }

  // ---- counts ----

  /** A folder is never above itself through its parent. */
  lemma NotAboveSelf(f: Folders, id: Id)
    requires Forest(f) && id in f
    ensures id !in Path(f, f[id].parent)
  {
    PathStep(f, id);
    PathOf(f, Some(id));
    PathDistinct(f, Some(id), Path(f, Some(id)));
  }

  /** Which folders a chain of the moved subtree passes: unchanged below the moved folder, the target's above. */
  lemma PassesInside(f: Folders, id: Id, target: Option<Id>, x: Id, a: Id)
    requires Forest(f) && CanMove(f, id, target) && Fits(f, id, target)
    requires x in f && Under(f, id, x) && a in f
    ensures Under(f, id, a) ==> (a in Path(Relinked(f, id, target), Some(x)) <==> a in Path(f, Some(x)))
    ensures Under(f, id, a) ==> a !in Path(f, f[id].parent) && a !in Path(f, target)
    ensures !Under(f, id, a) ==> (a in Path(Relinked(f, id, target), Some(x)) <==> a in Path(f, target))
    ensures !Under(f, id, a) ==> (a in Path(f, Some(x)) <==> a in Path(f, f[id].parent))
  {
    PathInside(f, id, target, x);
    SplitAt(f, id, x);
    if Under(f, id, a) {
      if a in Path(f, target) {
        UnderTransitive(f, id, a, target);
      }
      if a in Path(f, f[id].parent) {
        PathStep(f, id);
        UnderTransitive(f, id, a, f[id].parent);
        NotAboveSelf(f, id);
      }
    }
  }

  /** Whether a connection counts for `a` after the move. */
  lemma MemberAfterMove(f: Folders, c: Connections, id: Id, target: Option<Id>, a: Id, k: Id)
    requires Forest(f) && Linked(f, c) && CanMove(f, id, target) && Fits(f, id, target) && a in f && k in c
    ensures k !in HostSet(f, c, id) || Under(f, id, a) ==>
              (k in HostSet(Relinked(f, id, target), c, a) <==> k in HostSet(f, c, a))
    ensures k in HostSet(f, c, id) && !Under(f, id, a) ==>
              (k in HostSet(Relinked(f, id, target), c, a) <==> a in Path(f, target))
    ensures k in HostSet(f, c, id) && !Under(f, id, a) ==>
              (k in HostSet(f, c, a) <==> a in Path(f, f[id].parent))
  {
    var at := c[k].folder;
    if id in Path(f, at) {
      PathOf(f, at);
      PassesInside(f, id, target, at.value, a);
    } else {
      ChainOutside(f, id, target, at);
    }
  }

  /** Each count loses the moved hosts on the old chain and gains them on the new one. */
  lemma HostsAfterMove(f: Folders, c: Connections, id: Id, target: Option<Id>, a: Id)
    requires Forest(f) && Linked(f, c) && CanMove(f, id, target) && Fits(f, id, target) && a in f
    ensures Hosts(Relinked(f, id, target), c, a) ==
            Hosts(f, c, a)
            - (if a in Path(f, f[id].parent) then Hosts(f, c, id) else 0)
            + (if a in Path(f, target) then Hosts(f, c, id) else 0)
  {
    var before, after, moved := HostSet(f, c, a), HostSet(Relinked(f, id, target), c, a), HostSet(f, c, id);
    var inOld, inNew, below := a in Path(f, f[id].parent), a in Path(f, target), Under(f, id, a);
    assert below ==> !inOld && !inNew by {
      PathStep(f, id);
      PassesInside(f, id, target, id, a);
    }
    forall k | k in c
      ensures k !in moved || below ==> (k in after <==> k in before)
      ensures k in moved && !below ==> (k in after <==> inNew) && (k in before <==> inOld)
    {
      MemberAfterMove(f, c, id, target, a, k);
    }
    ReplacedPart(before, after, moved, c.Keys, inOld, inNew, below);
  }

  lemma ReplacedPart(before: set<Id>, after: set<Id>, moved: set<Id>, all: set<Id>, inOld: bool, inNew: bool, below: bool)
    requires before <= all && after <= all && moved <= all
    requires below ==> !inOld && !inNew
    requires forall k :: k in all && (k !in moved || below) ==> (k in after <==> k in before)
    requires forall k :: k in all && k in moved && !below ==> (k in after <==> inNew) && (k in before <==> inOld)
    ensures |after| == |before| - (if inOld then |moved| else 0) + (if inNew then |moved| else 0)
  {
    if below {
      assert after == before;
    } else {
      var rest := before - moved;
      assert after - moved == rest;
      SizeOfParts(before, moved, inOld);
      SizeOfParts(after, moved, inNew);
    }
  }

  lemma SizeOfParts(whole: set<Id>, part: set<Id>, inside: bool)
    requires if inside then part <= whole else part !! whole
    ensures |whole| == |whole - part| + (if inside then |part| else 0)
  {
    if inside {
      assert whole == (whole - part) + part;
    } else {
      assert whole == whole - part;
    }
  }

  // ---- the batch ----

  function MoveBatch(f: Folders, id: Id, target: Option<Id>): seq<Statement>
    requires id in f
  {
    [ReparentFolder(id, target)]
    + CountStatements(Path(f, f[id].parent), -f[id].count)
    + CountStatements(Path(f, target), f[id].count)
  }

  function MovedFolders(f: Folders, id: Id, target: Option<Id>): Folders
    requires id in f
  {
    Bumped(Bumped(Relinked(f, id, target), Path(f, f[id].parent), -f[id].count), Path(f, target), f[id].count)
  }

  /** Two chains of count updates, one after the other. */
  lemma RunTwoCounts(t: Tables, p: seq<Id>, q: seq<Id>, n: int)
    requires forall i, j :: 0 <= i < j < |p| ==> p[i] != p[j]
    requires forall i, j :: 0 <= i < j < |q| ==> q[i] != q[j]
    ensures RunAll(t, CountStatements(p, -n) + CountStatements(q, n)) ==
            Ok(t.(folders := Bumped(Bumped(t.folders, p, -n), q, n)))
  {
    var u := t.(folders := Bumped(t.folders, p, -n));
    RunCounts(t, p, -n);
    RunAllThen(t, CountStatements(p, -n), u, CountStatements(q, n));
    RunCounts(u, q, n);
  }

  lemma DistinctChain(f: Folders, at: Option<Id>)
    requires Forest(f) && Exists(f, at)
    ensures forall i, j :: 0 <= i < j < |Path(f, at)| ==> Path(f, at)[i] != Path(f, at)[j]
  {
    PathOf(f, at);
    PathDistinct(f, at, Path(f, at));
  }

  lemma RunMove(t: Tables, id: Id, target: Option<Id>)
    requires Forest(t.folders) && CanMove(t.folders, id, target)
    ensures RunAll(t, MoveBatch(t.folders, id, target)) ==
            if UniqueNames(Relinked(t.folders, id, target))
            then Ok(t.(folders := MovedFolders(t.folders, id, target)))
            else Err(UniqueFailed)
  {
    var f, n := t.folders, t.folders[id].count;
    PathStep(f, id);
    DistinctChain(f, f[id].parent);
    DistinctChain(f, target);
    var p, q := Path(f, f[id].parent), Path(f, target);
    var first := ReparentFolder(id, target);
    var counts := CountStatements(p, -n) + CountStatements(q, n);
    assert MoveBatch(f, id, target) == [first] + counts;
    RunOne(t, first);
    var u := t.(folders := Relinked(f, id, target));
    if UniqueNames(u.folders) {
      RunAllThen(t, [first], u, counts);
      RunTwoCounts(u, p, q, n);
    } else {
      RunAllFails(t, [first], counts);
    }
  }

  /** moveFolder keeps the invariant: forest, scopes, sibling names and every count. */
  lemma MoveKeepsIndex(t: Tables, id: Id, target: Option<Id>)
    requires Consistent(t) && CanMove(t.folders, id, target) && Fits(t.folders, id, target)
    requires UniqueNames(Relinked(t.folders, id, target))
    ensures Consistent(t.(folders := MovedFolders(t.folders, id, target)))
    ensures SameShape(Relinked(t.folders, id, target), MovedFolders(t.folders, id, target))
  {
    var f, c := t.folders, t.connections;
    var g, h := Relinked(f, id, target), MovedFolders(f, id, target);
    MoveDepthExact(f, id, target);
    assert ScopesMatch(g) && Linked(g, c);
    MovedCount(f, id, target);
    ShapeKeepsStructure(g, h, c);
    forall x | x in h ensures h[x].count == Hosts(h, c, x) {
      HostsAfterMove(f, c, id, target, x);
    }
  }

  lemma MovedCount(f: Folders, id: Id, target: Option<Id>)
    requires id in f
    ensures SameShape(Relinked(f, id, target), MovedFolders(f, id, target))
    ensures forall x :: x in f ==>
              MovedFolders(f, id, target)[x].count ==
              f[x].count - (if x in Path(f, f[id].parent) then f[id].count else 0)
                         + (if x in Path(f, target) then f[id].count else 0)
  {
  }

  /** The move is refused by the unique index exactly when the target already has a folder of that name. */
  lemma MoveNameExact(t: Tables, id: Id, target: Option<Id>)
    requires Consistent(t) && CanMove(t.folders, id, target) && t.folders[id].parent != target
    ensures UniqueNames(Relinked(t.folders, id, target)) <==>
            (forall x | x in t.folders && t.folders[x].parent == target :: t.folders[x].token != t.folders[id].token)
  {
    var f, g := t.folders, Relinked(t.folders, id, target);
    forall x | x in f ensures f[x].scope == ParentScope(target) <==> f[x].parent == target {
      PathStep(f, x);
    }
    OneRowNames(f, id, g[id]);
  }

  /** A sibling of the target position already bears the name. */
  ghost predicate NameTaken(f: Folders, id: Id, target: Option<Id>)
    requires id in f
  {
    exists x :: x in f && f[x].parent == target && f[x].token == f[id].token
  }

  /** A checked move: its batch is refused for a duplicate name only, and otherwise keeps the invariant. */
  lemma MoveDecided(t: Tables, id: Id, target: Option<Id>, batch: seq<Statement>)
    requires Consistent(t) && CanMove(t.folders, id, target) && Fits(t.folders, id, target)
    requires t.folders[id].parent != target && batch == MoveBatch(t.folders, id, target)
    ensures NameTaken(t.folders, id, target) ==> RunAll(t, batch) == Err(UniqueFailed)
    ensures !NameTaken(t.folders, id, target) ==>
              && RunAll(t, batch) == Ok(t.(folders := MovedFolders(t.folders, id, target)))
              && Consistent(t.(folders := MovedFolders(t.folders, id, target)))
              && SameShape(Relinked(t.folders, id, target), MovedFolders(t.folders, id, target))
  {
    RunMove(t, id, target);
    MoveNameExact(t, id, target);
    if UniqueNames(Relinked(t.folders, id, target)) {
      MoveKeepsIndex(t, id, target);
    }
  }
}
