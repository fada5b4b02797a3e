// What permanent deletion removes: whole subtrees, the bytes they hold, and the
// objects and blobs nothing points at any more.

module Removal {
  import opened Wrappers
  import opened Forest
  import opened References
  import opened Caches
  import opened Contents

  // ---- Bytes --------------------------------------------------------------

  function Weight(r: Row): int {
    if r.isDir then 0 else r.size
  }

  // The bytes of the files among the rows in s.
  ghost function FileBytes(t: Table, s: set<Id>): int
    requires s <= t.Keys
  {
    if s == {} then 0 else var x :| x in s; Weight(t[x]) + FileBytes(t, s - {x})
  }

  lemma {:induction false} BytesPick(t: Table, s: set<Id>, x: Id)
    requires s <= t.Keys && x in s
    ensures FileBytes(t, s) == Weight(t[x]) + FileBytes(t, s - {x})
    decreases s
  {
    var y :| y in s && FileBytes(t, s) == Weight(t[y]) + FileBytes(t, s - {y});
    if y != x {
      BytesPick(t, s - {y}, x);
      BytesPick(t, s - {x}, y);
      assert s - {y} - {x} == s - {x} - {y};
    }
  }

  lemma {:induction false} BytesUnion(t: Table, a: set<Id>, b: set<Id>)
    requires a <= t.Keys && b <= t.Keys && a !! b
    ensures FileBytes(t, a + b) == FileBytes(t, a) + FileBytes(t, b)
    decreases a
  {
    if a == {} {
      assert a + b == b;
    } else {
      var x :| x in a;
      BytesUnion(t, a - {x}, b);
      BytesPick(t, a, x);
      BytesPick(t, a + b, x);
      assert a + b - {x} == (a - {x}) + b;
    }
  }

  lemma {:induction false} BytesSame(t: Table, t': Table, s: set<Id>)
    requires s <= t.Keys && s <= t'.Keys && forall x :: x in s ==> t[x] == t'[x]
    ensures FileBytes(t, s) == FileBytes(t', s)
    decreases s
  {
    if s != {} {
      var x :| x in s;
      BytesPick(t, s, x);
      BytesPick(t', s, x);
      BytesSame(t, t', s - {x});
    }
  }

  lemma BytesOne(t: Table, x: Id)
    requires x in t
    ensures FileBytes(t, {x}) == Weight(t[x])
  {
    BytesPick(t, {x}, x);
    assert {x} - {x} == {};
  }

  // ---- Subtrees -----------------------------------------------------------

  predicate Childless(t: Table, i: Id) {
    forall j :: j in t ==> t[j].parent != Some(i)
  }

  // No file of the subtree has rows below it, so that it can be deleted at all.
  ghost predicate FilesAreLeaves(t: Table, v: View, f: Id) {
    forall x :: x in Sub(t, v, f) && !t[x].isDir ==> Childless(t, x)
  }

  ghost function Elements(s: seq<Id>): set<Id> {
    set i | i in s
  }

  lemma {:induction false} ElementsSize(ids: seq<Id>)
    ensures |Elements(ids)| <= |ids|
  {
    if ids == [] {
      assert Elements(ids) == {};
    } else {
      ElementsSize(ids[1..]);
      assert Elements(ids) == Elements(ids[1..]) + {ids[0]};
    }
  }

  // The subtrees of the first i children.
  ghost function Gone(t: Table, v: View, ch: seq<Id>, i: nat): set<Id>
    requires i <= |ch|
  {
    SubAll(t, v, Elements(ch[..i]))
  }

  ghost predicate Children(t: Table, v: View, f: Id, ch: seq<Id>) {
    && (forall c :: c in Kids(t, v, f) <==> c in ch)
    && (forall j, k :: 0 <= j < k < |ch| ==> ch[j] != ch[k])
  }

  lemma GoneStep(t: Table, v: View, f: Id, ch: seq<Id>, i: nat)
    requires Acyclic(t) && f in t && t[f].isDir && Children(t, v, f, ch) && i < |ch|
    ensures Gone(t, v, ch, i + 1) == Gone(t, v, ch, i) + Sub(t, v, ch[i])
    ensures Gone(t, v, ch, i) !! Sub(t, v, ch[i])
    ensures f !in Gone(t, v, ch, i + 1)
    ensures ch[i] in Kids(t, v, f) && Sub(t, v, ch[i]) < Sub(t, v, f)
    ensures ch[i] in Sub(t, v, ch[i])
  {
    assert ch[i] in ch;
    var c := ch[i];
    assert ch[..i + 1] == ch[..i] + [c];
    assert Elements(ch[..i + 1]) == Elements(ch[..i]) + {c};
    KidShrinks(t, v, c, f);
    SubUnfold(t, v, c);
    var next := Gone(t, v, ch, i + 1);
    forall x | x in next ensures x != f {
      var d :| d in Elements(ch[..i + 1]) && x in Sub(t, v, d);
      assert d in ch;
      NotBelowKid(t, v, d, f);
    }
    forall x | x in Gone(t, v, ch, i) ensures x !in Sub(t, v, c) {
      var k :| 0 <= k < i && x in Sub(t, v, ch[k]) by {
        var d :| d in Elements(ch[..i]) && x in Sub(t, v, d);
      }
      assert ch[k] in ch;
      SiblingsDisjoint(t, v, ch[k], c, f);
    }
  }

  lemma GoneAll(t: Table, v: View, f: Id, ch: seq<Id>)
    requires Acyclic(t) && f in t && t[f].isDir && Children(t, v, f, ch)
    ensures Gone(t, v, ch, |ch|) == Sub(t, v, f) - {f}
  {
    SubUnfold(t, v, f);
    assert ch[..|ch|] == ch;
    assert Elements(ch) == Kids(t, v, f);
    forall c | c in ch ensures f !in Sub(t, v, c) { NotBelowKid(t, v, c, f); }
  }

  // Deleting some children leaves the others' subtrees alone.
  lemma SiblingKept(t: Table, f: Id, ch: seq<Id>, i: nat)
    requires Acyclic(t) && f in t && t[f].isDir && Children(t, Everything, f, ch) && i < |ch|
    ensures var t' := t - Gone(t, Everything, ch, i);
      && Sub(t', Everything, ch[i]) == Sub(t, Everything, ch[i])
      && ch[i] in t' && t'[ch[i]] == t[ch[i]]
      && (FilesAreLeaves(t', Everything, ch[i]) <==> FilesAreLeaves(t, Everything, ch[i]))
  {
    var c := ch[i];
    var gone := Gone(t, Everything, ch, i);
    var t' := t - gone;
    GoneStep(t, Everything, f, ch, i);
    NotBelowKid(t, Everything, c, f);
    forall x | x in Sub(t, Everything, c)
      ensures x in t' && t'[x] == t[x] && Kids(t', Everything, x) == Kids(t, Everything, x)
    {
      forall y | y in gone ensures y !in Kids(t, Everything, x) {
        var d :| d in Elements(ch[..i]) && y in Sub(t, Everything, d);
        assert d in ch;
        if y != d {
          SubParent(t, Everything, y, d);
          assert t[y].parent.value in gone;
        }
      }
    }
    SubSame(t, t', Everything, c);
    forall x | x in Sub(t, Everything, c) ensures Childless(t', x) <==> Childless(t, x) {
      assert Kids(t', Everything, x) == Kids(t, Everything, x);
      ChildlessIff(t, x);
      ChildlessIff(t', x);
    }
  }

  lemma ChildlessIff(t: Table, x: Id)
    ensures Childless(t, x) <==> Kids(t, Everything, x) == {}
  {
    if Kids(t, Everything, x) == {} {
      forall j | j in t ensures t[j].parent != Some(x) { assert j !in Kids(t, Everything, x); }
    }
  }

  // With the rest of its subtree gone, a folder has no children left.
  lemma EmptiedFolder(t: Table, f: Id)
    requires Acyclic(t) && f in t && t[f].isDir
    ensures Childless(t - (Sub(t, Everything, f) - {f}), f)
  {
    assert Path(t, Everything, f, f, 0);
    assert Up(t, f, 0) == Some(f) && Up(t, f, 1) == ParentOf(t, f);
    var t' := t - (Sub(t, Everything, f) - {f});
    forall j | j in t' ensures t'[j].parent != Some(f) {
      if t[j].parent == Some(f) { SubKid(t, Everything, j, f, f); }
    }
  }

  lemma LeavesOfFolder(t: Table, f: Id)
    requires f in t && t[f].isDir
    ensures FilesAreLeaves(t, Everything, f) <==>
      forall c :: c in Kids(t, Everything, f) ==> FilesAreLeaves(t, Everything, c)
  {
    SubUnfold(t, Everything, f);
    if FilesAreLeaves(t, Everything, f) {
      forall c | c in Kids(t, Everything, f) ensures FilesAreLeaves(t, Everything, c) {
        assert Sub(t, Everything, c) <= SubAll(t, Everything, Kids(t, Everything, f));
      }
    }
  }

  lemma LeavesOfFile(t: Table, f: Id)
    requires f in t && !t[f].isDir
    ensures Sub(t, Everything, f) == {f}
    ensures FilesAreLeaves(t, Everything, f) <==> Childless(t, f)
  {
    SubUnfold(t, Everything, f);
  }

  // When files have nothing below them, the visited subtree is all descendants.
  lemma SubIsDescendants(t: Table, f: Id)
    requires f in t && ParentsExist(t) && FilesAreLeaves(t, Everything, f)
    ensures forall x :: x in Sub(t, Everything, f) <==> x in t && (x == f || ProperlyUnder(t, x, f))
  {
    assert Path(t, Everything, f, f, 0);
    forall x | x in Sub(t, Everything, f) ensures x == f || ProperlyUnder(t, x, f) {
      SubUnder(t, Everything, x, f);
    }
    forall x, n: nat | x in t && n > 0 && Up(t, x, n) == Some(f) ensures x in Sub(t, Everything, f) {
      DescendantVisited(t, x, f, n);
    }
  }

  lemma {:induction false} DescendantVisited(t: Table, x: Id, f: Id, n: nat)
    requires f in t && ParentsExist(t) && FilesAreLeaves(t, Everything, f)
    requires x in t && Up(t, x, n) == Some(f)
    ensures x in Sub(t, Everything, f)
    decreases n
  {
    if n == 0 {
      assert Path(t, Everything, f, f, 0);
    } else {
      assert Up(t, x, 0) == Some(x);
      UpPrefix(t, x, 1, n);
      var p := t[x].parent.value;
      UpAdd(t, x, 1, n - 1);
      DescendantVisited(t, p, f, n - 1);
      assert !Childless(t, p);
      SubKid(t, Everything, x, p, f);
    }
  }

  // t' is t without some of the rows in `within`.
  ghost predicate Pruned(t: Table, t': Table, within: set<Id>) {
    && (forall i :: i in t' ==> i in t && t'[i] == t[i])
    && (forall i :: i in t && i !in within ==> i in t')
  }

  lemma NothingPruned(t: Table, within: set<Id>)
    ensures Pruned(t, t, within)
  {}

  lemma PrunedAcyclic(t: Table, t': Table, within: set<Id>)
    requires Acyclic(t) && Pruned(t, t', within)
    ensures Acyclic(t')
  {
    SubtableAcyclic(t, t');
  }

  // The last two steps of removing a folder.
  lemma FolderDone(t: Table, f: Id)
    requires Acyclic(t) && f in t && t[f].isDir
    ensures var s := Sub(t, Everything, f); var rest := t - (s - {f});
      && f in rest && rest[f] == t[f] && Childless(rest, f)
      && rest - {f} == t - s && FileBytes(t, s) == FileBytes(t, s - {f})
  {
    assert Path(t, Everything, f, f, 0);
    EmptiedFolder(t, f);
    BytesPick(t, Sub(t, Everything, f), f);
  }

  // One child further.
  lemma ChildDone(t: Table, f: Id, ch: seq<Id>, i: nat)
    requires Acyclic(t) && f in t && t[f].isDir && Children(t, Everything, f, ch) && i < |ch|
    ensures var gone := Gone(t, Everything, ch, i); var s := Sub(t, Everything, ch[i]);
      && (t - gone) - s == t - Gone(t, Everything, ch, i + 1)
      && gone + s == Gone(t, Everything, ch, i + 1)
      && Gone(t, Everything, ch, i + 1) <= Sub(t, Everything, f) - {f}
      && s <= (t - gone).Keys
      && FileBytes(t, Gone(t, Everything, ch, i + 1)) == FileBytes(t, gone) + FileBytes(t - gone, s)
  {
    var gone, s := Gone(t, Everything, ch, i), Sub(t, Everything, ch[i]);
    GoneStep(t, Everything, f, ch, i);
    BytesUnion(t, gone, s);
    BytesSame(t, t - gone, s);
    SubUnfold(t, Everything, f);
    forall x | x in gone ensures x in Sub(t, Everything, f) {
      var d :| d in Elements(ch[..i]) && x in Sub(t, Everything, d);
      assert d in ch;
      assert x in SubAll(t, Everything, Kids(t, Everything, f));
    }
  }

  lemma PrunedFurther(t: Table, t1: Table, t2: Table, f: Id, ch: seq<Id>, i: nat)
    requires Acyclic(t) && f in t && t[f].isDir && Children(t, Everything, f, ch) && i < |ch|
    requires Pruned(t, t1, Sub(t, Everything, f) - {f}) && Pruned(t1, t2, Sub(t, Everything, ch[i]))
    ensures Pruned(t, t2, Sub(t, Everything, f) - {f}) && forall x :: x in t2 ==> x in t1 && t2[x] == t1[x]
  {
    ChildDone(t, f, ch, i);
    hide Sub, Gone;
  }

  // ---- Objects and blobs --------------------------------------------------

  // Objects were only counted down or removed.
  ghost predicate Thinned(before: Objects, after: Objects) {
    forall o :: o in after ==> o in before && after[o].(refCount := 0) == before[o].(refCount := 0)
  }

  ghost function LostBlobs(before: Objects, after: Objects): set<Loc> {
    set o | o in before && o !in after :: before[o].loc
  }

  // Every blob that went away belonged to an object no row points at.
  ghost predicate GoneUnused(objs: Objects, t: Table, before: Blobs, after: Blobs) {
    Submap(after, before) &&
    forall l :: l in before && l !in after ==> exists o :: o in objs && objs[o].loc == l && Unused(t, o)
  }

  lemma ThinnedTrans(a: Objects, b: Objects, c: Objects)
    requires Thinned(a, b) && Thinned(b, c)
    ensures Thinned(a, c) && LostBlobs(a, c) == LostBlobs(a, b) + LostBlobs(b, c)
  {
    forall o | o in b ensures b[o].loc == a[o].loc {}
    forall l | l in LostBlobs(a, c) ensures l in LostBlobs(a, b) + LostBlobs(b, c) {
      var o :| o in a && o !in c && a[o].loc == l;
      if o in b { assert b[o].loc == l; }
    }
    forall l | l in LostBlobs(b, c) ensures l in LostBlobs(a, c) {
      var o :| o in b && o !in c && b[o].loc == l;
      assert a[o].loc == l;
    }
  }

  lemma GoneUnusedTrans(a: Objects, b: Objects, t: Table, t': Table, x: Blobs, y: Blobs, z: Blobs)
    requires Thinned(a, b) && GoneUnused(a, t, x, y) && GoneUnused(b, t', y, z)
    requires forall i :: i in t' ==> i in t && t'[i] == t[i]
    ensures GoneUnused(a, t', x, z)
  {
    forall l | l in x && l !in z ensures exists o :: o in a && a[o].loc == l && Unused(t', o) {
      if l in y {
        var o :| o in b && b[o].loc == l && Unused(t', o);
        assert a[o].loc == l;
      } else {
        var o :| o in a && a[o].loc == l && Unused(t, o);
        assert Unused(t', o);
      }
    }
  }

  lemma GoneUnusedShrinks(a: Objects, t: Table, t': Table, x: Blobs, y: Blobs)
    requires GoneUnused(a, t, x, y) && forall i :: i in t' ==> i in t && t'[i] == t[i]
    ensures GoneUnused(a, t', x, y)
  {
    forall l | l in x && l !in y ensures exists o :: o in a && a[o].loc == l && Unused(t', o) {
      var o :| o in a && a[o].loc == l && Unused(t, o);
      assert Unused(t', o);
    }
  }

  // What deletions may do to content: blobs go only with unused objects, and every row that
  // is left keeps its own, provided no two objects shared a location before.
  ghost predicate Emptied(objs0: Objects, blobs0: Blobs, t: Table, objs: Objects, blobs: Blobs, wasPlaced: bool) {
    GoneUnused(objs0, t, blobs0, blobs) && (wasPlaced ==> Placed(t, objs, blobs))
  }

  lemma EmptiedTrans(objs0: Objects, blobs0: Blobs, t1: Table, objs1: Objects, blobs1: Blobs,
    t: Table, objs: Objects, blobs: Blobs, wasPlaced: bool)
    requires Thinned(objs0, objs1) && Emptied(objs0, blobs0, t1, objs1, blobs1, wasPlaced)
    requires Emptied(objs1, blobs1, t, objs, blobs, Placed(t1, objs1, blobs1))
    requires forall i :: i in t ==> i in t1 && t[i] == t1[i]
    ensures Emptied(objs0, blobs0, t, objs, blobs, wasPlaced)
  {
    hide GoneUnused;
    GoneUnusedTrans(objs0, objs1, t1, t, blobs0, blobs1, blobs);
  }

  lemma EmptiedShrinks(objs0: Objects, blobs0: Blobs, t1: Table, objs: Objects, blobs: Blobs, t: Table, wasPlaced: bool)
    requires Emptied(objs0, blobs0, t1, objs, blobs, wasPlaced) && forall i :: i in t ==> i in t1 && t[i] == t1[i]
    ensures Emptied(objs0, blobs0, t, objs, blobs, wasPlaced)
  {
    GoneUnusedShrinks(objs0, t1, t, blobs0, blobs);
    FewerRowsStayPlaced(t1, objs, t, blobs);
  }

  // Giving up the last reference: nothing, the blob, or blob and object may be gone.
  lemma EmptiedOne(t: Table, objs: Objects, o: Id, blobs: Blobs)
    requires o in objs && Unused(t, o)
    ensures var was, l := Placed(t, objs, blobs), objs[o].loc;
      && Emptied(objs, blobs, t, objs, blobs - {l}, was)
      && Emptied(objs, blobs, t, objs - {o}, blobs - {l}, was)
  {
    RemovalStaysPlaced(t, objs, o, blobs);
    hide Placed;
  }

  lemma EmptiedMeans(objs0: Objects, blobs0: Blobs, t: Table, objs: Objects, blobs: Blobs, wasPlaced: bool)
    requires Emptied(objs0, blobs0, t, objs, blobs, wasPlaced)
    ensures Submap(blobs, blobs0) && (wasPlaced ==> Placed(t, objs, blobs))
  {}

  lemma EmptiedWeaker(objs0: Objects, blobs0: Blobs, t: Table, objs: Objects, blobs: Blobs, was: bool, now: bool)
    requires Emptied(objs0, blobs0, t, objs, blobs, now) && (was ==> now)
    ensures Emptied(objs0, blobs0, t, objs, blobs, was)
  {}

  lemma LostByRemoval(objs: Objects, o: Id)
    ensures LostBlobs(objs, Recounted(objs, o, -1)) == {}
    ensures o in objs ==> LostBlobs(objs, objs - {o}) == {objs[o].loc}
  {}

  lemma EmptiedCount(t: Table, objs: Objects, o: Id, blobs: Blobs)
    ensures Emptied(objs, blobs, t, Recounted(objs, o, -1), blobs, Placed(t, objs, blobs))
  {
    CountStaysPlaced(t, objs, o, -1, blobs);
    hide Placed;
  }

  lemma NothingLost(objs: Objects, t: Table, blobs: Blobs)
    ensures LostBlobs(objs, objs) == {} && Thinned(objs, objs)
    ensures Emptied(objs, blobs, t, objs, blobs, Placed(t, objs, blobs))
  {}

  lemma StartOfDeletion(t: Table, f: Id, ch: seq<Id>, objs: Objects, blobs: Blobs)
    ensures Gone(t, Everything, ch, 0) == {} && FileBytes(t, {}) == 0
    ensures LostBlobs(objs, objs) == {} && Thinned(objs, objs)
    ensures Emptied(objs, blobs, t, objs, blobs, Placed(t, objs, blobs))
  {}

  // ---- Pages --------------------------------------------------------------

  // Of the folders that still exist, only the one that held the subtree looks different.
  lemma DeleteChangesOne(t: Table, n: Id, f: Id, pages: map<string, Page>, q: Query)
    requires Coherent(t, n, pages, q) && f in t && ParentsExist(t) && forall i :: i in t ==> 0 < i < n
    ensures CoherentExcept(t - Sub(t, Everything, f), n, pages, q, {(t[f].user, CacheParent(t[f].parent))})
  {
    var t' := t - Sub(t, Everything, f);
    var stale := {(t[f].user, CacheParent(t[f].parent))};
    forall u: Id, p: Id | Relevant(t', n, p) && (u, p) !in stale
      ensures FolderView(t', u, p) == FolderView(t, u, p)
    {
      forall i | i in FolderView(t, u, p) ensures i in t' {
        if i in Sub(t, Everything, f) && i != f { SubParent(t, Everything, i, f); }
      }
    }
    ChangedFolders(t, n, t', n, pages, q, {}, stale);
  }

  // The folders whose listing a deletion may change: those in the subtree, and the one above.
  ghost function DeletionTouches(t: Table, f: Id): set<Id> {
    Sub(t, Everything, f) + (if f in t then {CacheParent(t[f].parent)} else {})
  }

  lemma PagesAfterDeletion(t: Table, n: Id, t': Table, f: Id, pages: map<string, Page>, q: Query)
    requires Coherent(t, n, pages, q) && Pruned(t, t', Sub(t, Everything, f)) && forall i :: i in t ==> 0 < i < n
    ensures Coherent(t', n, pages, q) <==>
      forall u: Id, p: Id :: p in DeletionTouches(t, f) && Relevant(t', n, p) ==> PagesStand(t, t', pages, q, u, p)
  {
    forall u: Id, p: Id | p !in DeletionTouches(t, f) ensures FolderView(t', u, p) == FolderView(t, u, p) {
      forall i | i in FolderView(t, u, p) ensures i in t' {
        if i in Sub(t, Everything, f) && i != f { SubParent(t, Everything, i, f); }
      }
    }
    hide FolderView, Sub;
    CoherentIff(t, n, pages, t', n, pages, q, DeletionTouches(t, f));
  }
}
