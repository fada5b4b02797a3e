// Where the service falls short of what its operations are for, and exactly when.

module Limits {
  import opened Wrappers
  import opened Forest
  import opened References
  import opened ObjectNames
  import opened Caches
  import opened Contents
  import opened Removal
  import opened Copies
  import opened Netdisk

  // ---- A move that closes a cycle -----------------------------------------

  function Folder(parent: Option<Id>, name: string, deleted: bool): Row {
    Row(7, parent, name, true, None, 0, deleted, 0)
  }

  // A folder, a recycled folder in it, and a live folder restored inside that one.
  function Nested(): Table {
    map[1 := Folder(None, "a", false), 2 := Folder(Some(1), "b", true), 3 := Folder(Some(2), "c", false)]
  }

  lemma {:induction false} DownhillWalk(t: Table, i: Id, n: nat)
    requires forall x :: x in t && t[x].parent.Some? ==> t[x].parent.value < x
    ensures n > 0 && Up(t, i, n).Some? ==> Up(t, i, n).value < i
  {
    if n > 0 {
      DownhillWalk(t, i, n - 1);
      assert Up(t, i, 0) == Some(i);
    }
  }

  // Rows whose parents are older form a forest.
  lemma OlderParents(t: Table)
    requires forall x :: x in t && t[x].parent.Some? ==> t[x].parent.value < x
    ensures Acyclic(t)
  {
    forall i: Id, n: nat | n > 0 ensures Up(t, i, n) != Some(i) { DownhillWalk(t, i, n); }
  }

  lemma NestedWalk()
    ensures Up(Nested(), 3, 0) == Some(3) && Up(Nested(), 3, 1) == Some(2) && Up(Nested(), 3, 2) == Some(1)
  {
    assert ParentOf(Nested(), 3) == Some(2) && ParentOf(Nested(), 2) == Some(1);
  }

  // Moving the outermost folder into the innermost one passes every check, and its rows
  // end up on a cycle.
  lemma GuardMissesHiddenAncestor(stamp: nat)
    ensures var t := Nested();
      && Acyclic(t) && MoveAllowed(t, 7, [1], Some(3)) && HiddenAncestor(t, 7, Some(3), 1)
      && !Acyclic(Reparented(t, Selected(t, 7, [1]), Some(3), stamp))
  {
    var t := Nested();
    OlderParents(t);
    NestedWalk();
    assert Selected(t, 7, [1]) == {1};
    assert !OpenWalk(t, 7, 3, 2) by { assert Up(t, 3, 1) == Some(2); }
    assert HiddenAncestor(t, 7, Some(3), 1);
    assert !WalkFinds(t, 7, 3, 1) by {
      forall n: nat | n > 0 && Up(t, 3, n) == Some(1) ensures !OpenWalk(t, 7, 3, n) {
        if n == 1 { NestedWalk(); }
        assert Up(t, 3, 1) == Some(2);
      }
    }
    assert GuardPasses(t, 7, [1], Some(3));
    assert MoveAllowed(t, 7, [1], Some(3));
    var t' := Reparented(t, {1}, Some(3), stamp);
    MoveAcyclicIff(t, t', {1}, Some(3));
  }

  // ---- A copy into one of its own sources ----------------------------------

  // Nothing guards against a target inside a source, and no table can hold what such a copy
  // would have to produce: a copy of everything below f that itself lies below f.
  lemma NoCopyInsideItsSource(t: Table, user: Id, f: Id, n: Id, c: map<Id, Id>)
    requires Acyclic(t) && f in t && n in Sub(t, LiveOf(user), f) && n != f
    requires c.Keys == Sub(t, LiveOf(user), f) && Injective(c)
    ensures !(c.Values <= Sub(t, LiveOf(user), n))
  {
    var v := LiveOf(user);
    var whole, part := Sub(t, v, f), Sub(t, v, n);
    forall x | x in part ensures x in whole { InnerIsWhole(t, v, x, n, f); }
    SubUnder(t, v, n, f);
    assert f !in part by { if f in part { SubUnder(t, v, f, n); BothUnder(t, f, n); } }
    SubUnfold(t, v, f);
    assert part < whole;
    if c.Values <= part {
      InjectiveSize(c);
      SubsetSize(c.Values, part);
      SubsetSize(part, whole - {f});
    }
  }

  lemma {:induction false} InjectiveSize(c: map<Id, Id>)
    requires Injective(c)
    ensures |c.Values| == |c.Keys|
    decreases |c|
  {
    if c.Keys == {} {
      assert c.Values == {};
    } else {
      var x :| x in c;
      var rest := c - {x};
      InjectiveSize(rest);
      assert c.Keys == rest.Keys + {x};
      assert c.Values == rest.Values + {c[x]};
      assert c[x] !in rest.Values;
    }
  }

  lemma InnerIsWhole(t: Table, v: View, x: Id, n: Id, f: Id)
    requires x in Sub(t, v, n) && n in Sub(t, v, f)
    ensures x in Sub(t, v, f)
  {
    var k: nat :| Path(t, v, x, n, k);
    var m: nat :| Path(t, v, n, f, m);
    PathJoin(t, v, x, n, f, k, m);
  }

  lemma {:induction false} PathJoin(t: Table, v: View, x: Id, n: Id, f: Id, k: nat, m: nat)
    requires Path(t, v, x, n, k) && Path(t, v, n, f, m)
    ensures Path(t, v, x, f, k + m)
    decreases k
  {
    if k > 0 { PathJoin(t, v, t[x].parent.value, n, f, k - 1, m); }
  }

  lemma BothUnder(t: Table, a: Id, b: Id)
    requires ProperlyUnder(t, a, b) && ProperlyUnder(t, b, a)
    ensures !Acyclic(t)
  {
    var m: nat :| m > 0 && Up(t, a, m) == Some(b);
    var n: nat :| n > 0 && Up(t, b, n) == Some(a);
    UpAdd(t, a, m, n);
    assert Up(t, a, m + n) == Some(a);
  }

  // The copy's own recursion, cut off after `depth` levels of folders. Whatever it is given,
  // whatever fails and however deep it may go, it succeeds only with a target outside the
  // sources: inside, each new folder is a child that is still to be copied.
  method CopyToDepth(d: Service, user: Id, ids: seq<Id>, target: Option<Id>, depth: nat) returns (ok: bool)
    requires d.Ok()
    modifies d
    ensures d.Ok() && OnlyGrown(old(d.rows), d.rows)
    ensures ok && target.Some? ==> target.value !in Zone(old(d.rows), user, Selected(old(d.rows), user, ids))
    decreases depth
  {
    hide Schema, Selected, NameInUse, OnlyGrown, Reaches;
    ghost var t0 := d.rows;
    OnlyGrownSelf(t0);
    var failed := Fault(d.reliable);
    if depth == 0 || failed || !TargetOk(d.rows, user, target) { return false; }
    var files := Fetch(Selected(d.rows, user, ids));
    if |files| != |ids| { return false; }
    for i := 0 to |files|
      invariant d.Ok() && OnlyGrown(t0, d.rows)
      invariant target.Some? ==> forall k :: 0 <= k < i ==> !Reaches(t0, user, target.value, files[k])
    {
      assert files[i] in files;
      SelectedRow(t0, user, ids, files[i]);
      ok := CopyEntry(d, t0, user, files[i], target, depth);
      if !ok { return; }
    }
    d.InvalidateFileListCache(user, target, {});
    NotInZone(t0, user, ids, files, target);
    ok := true;
  }

  method CopyEntry(d: Service, ghost t0: Table, user: Id, f: Id, target: Option<Id>, depth: nat) returns (ok: bool)
    requires d.Ok() && OnlyGrown(t0, d.rows) && f in t0 && Sees(LiveOf(user), t0[f]) && TargetOk(t0, user, target)
    requires depth > 0
    modifies d
    ensures d.Ok() && OnlyGrown(t0, d.rows)
    ensures ok && target.Some? ==> !Reaches(t0, user, target.value, f)
    decreases depth, 0
  {
    hide Schema, Selected, NameInUse, OnlyGrown, Reaches, Insertable;
    PositiveIds(d.rows, d.objs, d.nextRow, d.nextObj);
    OnlyGrownRow(t0, d.rows, f);
    var failed := Fault(d.reliable);
    if failed || NameInUse(d.rows, user, target, d.rows[f].name) { return false; }
    var file := d.rows[f];
    var stamp := d.Now();
    ShapedRow(d.rows, d.objs, d.nextRow, d.nextObj, f);
    ghost var t1 := d.rows;
    var id := d.InsertRow(Row(user, target, file.name, file.isDir, file.obj, file.size, false, stamp));
    if id.None? { return false; }
    OnlyGrownTrans(t0, t1, d.rows);
    if file.isDir {
      failed := Fault(d.reliable);
      if failed { return false; }
      ghost var t2 := d.rows;
      var children := Fetch(Kids(d.rows, Live, f));
      if children != [] {
        ok := CopyToDepth(d, user, children, id, depth - 1);
        OnlyGrownTrans(t0, t2, d.rows);
        if !ok { return; }
      }
      OnlyOutside(t0, t2, user, f, target, id.value, children);
    } else {
      NothingBelowFile(t0, user, f, target);
    }
    ok := true;
    if file.obj.Some? { ok := d.IncreaseRefCount(file.obj.value); }
  }

  // The target lies below f, or is f.
  ghost predicate Reaches(t: Table, user: Id, target: Id, f: Id) {
    exists n: nat :: Path(t, LiveOf(user), target, f, n)
  }

  ghost predicate OnlyGrown(t0: Table, t: Table) {
    forall x :: x in t0 ==> x in t && t[x] == t0[x]
  }

  lemma OnlyGrownSelf(t: Table)
    ensures OnlyGrown(t, t)
  {}

  lemma OnlyGrownTrans(a: Table, b: Table, c: Table)
    requires OnlyGrown(a, b) && OnlyGrown(b, c)
    ensures OnlyGrown(a, c)
  {}

  lemma OnlyGrownRow(t0: Table, t: Table, f: Id)
    requires OnlyGrown(t0, t) && f in t0
    ensures f in t && t[f] == t0[f] && (0 !in t ==> 0 !in t0)
  {}

  lemma ShapedRow(t: Table, objs: Objects, nextRow: Id, nextObj: Id, f: Id)
    requires Schema(t, objs, nextRow, nextObj) && f in t
    ensures t[f].isDir <==> t[f].obj.None?
  {}

  lemma {:induction false} PathGrows(t0: Table, t: Table, v: View, x: Id, f: Id, n: nat)
    requires OnlyGrown(t0, t) && Path(t0, v, x, f, n)
    ensures Path(t, v, x, f, n)
    decreases n
  {
    if n > 0 { PathGrows(t0, t, v, t0[x].parent.value, f, n - 1); }
  }

  // The last step down to x from f goes through a child of f.
  lemma {:induction false} PathByChild(t: Table, v: View, x: Id, f: Id, n: nat) returns (c: Id)
    requires Path(t, v, x, f, n + 1)
    ensures c in Kids(t, v, f) && Path(t, v, x, c, n) && f in t && t[f].isDir
    decreases n
  {
    if n == 0 { c := x; } else { c := PathByChild(t, v, t[x].parent.value, f, n - 1); }
  }

  lemma NotInZone(t: Table, user: Id, ids: seq<Id>, files: seq<Id>, target: Option<Id>)
    requires forall x :: x in Selected(t, user, ids) <==> x in files
    requires target.Some? ==> forall k :: 0 <= k < |files| ==> !Reaches(t, user, target.value, files[k])
    ensures target.Some? ==> target.value !in Zone(t, user, Selected(t, user, ids))
  {
    hide Selected;
  }

  lemma NothingBelowFile(t: Table, user: Id, f: Id, target: Option<Id>)
    requires f in t && !t[f].isDir && TargetOk(t, user, target) && 0 !in t
    ensures target.Some? ==> !Reaches(t, user, target.value, f)
  {
    if target.Some? {
      forall n: nat ensures !Path(t, LiveOf(user), target.value, f, n) {
        if n > 0 && Path(t, LiveOf(user), target.value, f, n) {
          var c := PathByChild(t, LiveOf(user), target.value, f, n - 1);
        }
      }
    }
  }

  // When the target lies below f, the new folder under it lies below a child of f.
  lemma NewFolderIsBelow(t0: Table, t: Table, user: Id, f: Id, target: Id, id: Id, children: seq<Id>, n: nat)
    requires OnlyGrown(t0, t) && LiveFolder(t0, user, target) && Path(t0, LiveOf(user), target, f, n)
    requires id in t && t[id].parent == Some(target) && Sees(LiveOf(user), t[id])
    requires forall c :: c in Kids(t, Live, f) <==> c in children
    ensures children != [] && id in Zone(t, user, Selected(t, user, children))
  {
    PathGrows(t0, t, LiveOf(user), target, f, n);
    assert Path(t, LiveOf(user), id, f, n + 1);
    var c := PathByChild(t, LiveOf(user), id, f, n);
    assert c in Kids(t, Live, f);
    assert c in Selected(t, user, children);
  }

  lemma OnlyOutside(t0: Table, t: Table, user: Id, f: Id, target: Option<Id>, id: Id, children: seq<Id>)
    requires OnlyGrown(t0, t) && TargetOk(t0, user, target) && 0 !in t0
    requires id in t && t[id].parent == target && Sees(LiveOf(user), t[id])
    requires forall c :: c in Kids(t, Live, f) <==> c in children
    requires children != [] ==> id !in Zone(t, user, Selected(t, user, children))
    ensures target.Some? ==> !Reaches(t0, user, target.value, f)
  {
    hide Zone, Kids, Selected;
    if target.Some? {
      forall n: nat ensures !Path(t0, LiveOf(user), target.value, f, n) {
        if Path(t0, LiveOf(user), target.value, f, n) {
          NewFolderIsBelow(t0, t, user, f, target.value, id, children, n);
        }
      }
    }
  }

  // ---- Content shared by accident ------------------------------------------

  // User "a" with hash "b/c" and user "a/b" with hash "c" store at the same path. When the
  // second file is deleted for good, the first one's row and object stay and its content is
  // gone.
  method SharedPathLosesContent(query: Query, bucket: string, first: Bytes, second: Bytes)
    returns (d: Service, file: Id)
    ensures d.Ok() && file in d.rows && !d.rows[file].deleted && d.rows[file].user == 1 && d.rows[file].obj.Some?
    ensures d.rows[file].obj.value in d.objs && d.objs[d.rows[file].obj.value].loc !in d.blobs
    ensures Exact(d.rows, d.objs) && !Placed(d.rows, d.objs, d.blobs)
  {
    hide Schema, Exact, Safe, Coherent, CoherentExcept, Acyclic, CacheOk, NoGhosts, Placed;
    hide Emptied, Pruned, Sub, FilesAreLeaves, DeletionTouches, PagesStand, Relevant, Replaceable, FileBytes, LostBlobs;
    var two: Id;
    d, file, two := StoreTwiceAtOnePath(query, bucket, first, second);
    NameFree(d.rows, two, d.rows[two].(deleted := true));
    var recycled := d.MoveToRecycle(2, two);
    ghost var t, objs, o := d.rows, d.objs, d.rows[two].obj.value;
    OnlyRow(t, objs, two, o);
    var deleted, _ := d.DeleteFileRecord(2, two);
    LoneObjectGoes(t, objs, d.rows, d.objs, two, o);
    RowHasObject(d.rows, d.objs, d.nextRow, d.nextObj, file);
    ContentMissing(d.rows, d.objs, d.blobs, file);
  }

  // A completed upload of a new hash into the root folder.
  method StoreAtRoot(d: Service, user: Id, userName: string, name: string, hash: string, data: Bytes)
    returns (id: Id, o: Id)
    requires d.reliable && d.Ok() && Acyclic(d.rows) && Exact(d.rows, d.objs) && d.Cached() && NoGhosts(d.objs, d.cache)
    requires !HashTaken(d.objs, hash)
    modifies d
    ensures d.Ok() && Acyclic(d.rows) && Exact(d.rows, d.objs) && d.Cached() && NoGhosts(d.objs, d.cache)
    ensures id !in old(d.rows) && id in d.rows && d.rows == old(d.rows)[id := d.rows[id]]
    ensures d.rows[id] == NewFile(user, None, name, o, |data|, d.rows[id].stamp)
    ensures o !in old(d.objs)
    ensures d.objs == old(d.objs)[o := Obj(user, hash, Loc(d.bucket, BuildObjectName(userName, hash)), |data|, 1)]
  {
    hide Exact, Safe, Coherent, Acyclic, CacheOk, Placed, AllKeep, PathOpen, OthersKeep, UniqueNames, UniqueHashes;
    hide Shaped;
    o := d.nextObj;
    var r, _ := d.CompleteFile(user, userName, 0, name, hash, |data|, data);
    id := r.value;
  }

  method StoreTwiceAtOnePath(query: Query, bucket: string, first: Bytes, second: Bytes)
    returns (d: Service, one: Id, two: Id)
    ensures fresh(d) && d.reliable && d.Ok() && Acyclic(d.rows) && Exact(d.rows, d.objs)
    ensures one != two && d.rows.Keys == {one, two} && one in d.rows && two in d.rows
    ensures d.rows[one].user == 1 && d.rows[two].user == 2
    ensures forall i :: i in d.rows ==>
      && !d.rows[i].deleted && !d.rows[i].isDir && d.rows[i].parent == None
      && d.rows[i].obj.Some? && d.rows[i].obj.value in d.objs
      && d.objs[d.rows[i].obj.value].loc == Loc(bucket, "files/a/b/c")
    ensures d.rows[one].obj != d.rows[two].obj
  {
    hide Schema, Exact, Safe, Coherent, Acyclic, CacheOk, NoGhosts, Placed, AllKeep;
    d := new Service(true, true, query, bucket);
    assert BuildObjectName("a", "b/c") == "files/a/b/c" == BuildObjectName("a/b", "c");
    var o, p: Id;
    one, o := StoreAtRoot(d, 1, "a", "one", "b/c", first);
    assert "b/c" != "c";
    two, p := StoreAtRoot(d, 2, "a/b", "two", "c", second);
  }

  lemma NameFree(t: Table, i: Id, r: Row)
    ensures r.parent == None ==> Replaceable(t, i, r)
  {}

  lemma ContentMissing(t: Table, objs: Objects, blobs: Blobs, i: Id)
    requires i in t && t[i].obj.Some? && t[i].obj.value in objs && objs[t[i].obj.value].loc !in blobs
    ensures !Placed(t, objs, blobs)
  {}

  lemma OnlyRow(t: Table, objs: Objects, n: Id, o: Id)
    requires n in t && !t[n].isDir && t[n].obj == Some(o) && forall i :: i in t ==> t[i].parent == None
    ensures Sub(t, Everything, n) == {n} && FilesAreLeaves(t, Everything, n)
  {
    SubUnfold(t, Everything, n);
  }

  lemma LoneObjectGoes(t: Table, objs: Objects, t': Table, objs': Objects, n: Id, o: Id)
    requires o in objs && t' == t - {n} && Exact(t', objs') && forall i :: i in t && i != n ==> t[i].obj != Some(o)
    ensures o !in objs' && objs[o].loc in LostBlobs(objs, objs')
  {
    UnusedIff(t', o);
  }

  lemma RowHasObject(t: Table, objs: Objects, nextRow: Id, nextObj: Id, i: Id)
    requires Schema(t, objs, nextRow, nextObj) && i in t && t[i].obj.Some?
    ensures t[i].obj.value in objs
  {}

  // ---- An object that only the cache still knows ----------------------------

  // A name clash rolls an upload of a new hash back. The retry under a free name fails,
  // because the cache answers with the object that is gone; the one after it succeeds.
  method GhostRetryFails(query: Query, bucket: string, data: Bytes)
    returns (d: Service, retry: Option<Id>, again: Option<Id>)
    ensures d.Ok() && retry == None && again.Some?
  {
    hide Schema, Exact, Safe, Coherent, Acyclic, CacheOk, NoGhosts, Placed, AllKeep, PathOpen, OthersKeep, GhostFor;
    hide HashTaken, PlaceFree;
    var f: Id;
    d, f := RolledBackUpload(query, bucket, data);
    ExactIsSafe(d.rows, d.objs);
    ghost var met: bool;
    retry, met := d.CompleteFile(1, "u", f, "y", "h2", |data|, data);
    again, met := d.CompleteFile(1, "u", f, "y", "h2", |data|, data);
  }

  method RolledBackUpload(query: Query, bucket: string, data: Bytes) returns (d: Service, f: Id)
    ensures fresh(d) && d.reliable && d.lasting && d.Ok() && d.Cached() && Exact(d.rows, d.objs)
    ensures f != 0 && PlaceFree(d.rows, 1, Some(f), "y") && !HashTaken(d.objs, "h2") && GhostFor(d.objs, d.cache, "h2")
  {
    hide Schema, Exact, Safe, Coherent, Acyclic, CacheOk, Placed, AllKeep, PathOpen, OthersKeep;
    d := new Service(true, true, query, bucket);
    var folder := d.CreateFolder(1, None, "f");
    f := folder.value;
    PositiveIds(d.rows, d.objs, d.nextRow, d.nextObj);
    var first, _ := d.CompleteFile(1, "u", f, "x", "h1", |data|, data);
    assert "h1" != "h2";
    ExactIsSafe(d.rows, d.objs);
    assert !PlaceFree(d.rows, 1, Some(f), "x");
    var clash, _ := d.CompleteFile(1, "u", f, "x", "h2", |data|, data);
  }

  lemma PositiveIds(t: Table, objs: Objects, nextRow: Id, nextObj: Id)
    requires Schema(t, objs, nextRow, nextObj)
    ensures 0 !in t
  {}

  // ---- A download stored twice ----------------------------------------------

  // A download is stored, its last status write fails, and the next attempt stores it again:
  // two rows, one counted reference.
  method DownloadStoredTwice(query: Query, bucket: string, data: Bytes) returns (d: Service)
    ensures d.Ok() && |d.rows| == 2 && !Exact(d.rows, d.objs) && !Safe(d.rows, d.objs)
  {
    hide Schema, Exact, Safe, Coherent, Acyclic, CacheOk, NoGhosts, Placed, AllKeep;
    d := new Service(true, true, query, bucket);
    var one := d.FinishDownload(1, "u", "t", |data|, "a", data, StoreFaults(false, false, false));
    assert d.objs[1].hash == "t";
    var two := d.FinishDownload(1, "u", "t", |data|, "a", data, StoreFaults(false, false, false));
  }
}
