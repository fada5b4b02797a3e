// The netdisk service over its tables, blob store and caches.
//
// Every database or storage call is one atomic step. With `reliable` set, a call
// fails only on a key, name or foreign-key conflict; otherwise it may also fail
// at any time, without effect. `log` records both tables after every write, so
// that a claim about all of `log` is a claim about every intermediate step.

module Netdisk {
  import opened Wrappers
  import opened Forest
  import opened References
  import opened CacheKeys
  import opened Caches
  import opened Contents
  import opened Steps
  import opened Removal
  import opened Copies
  import opened Decimals
  import opened ObjectNames

  datatype Lookup = Found(id: Id, obj: Obj) | NotFound | Failed

  datatype UploadReply = Instant(fileId: Id) | NeedUpload(reason: string) | Rejected

  function NewFile(user: Id, parent: Option<Id>, name: string, o: Id, size: int, stamp: nat): (r: Row)
    ensures r.user == user && r.parent == parent && r.name == name && r.obj == Some(o) && r.size == size
    ensures !r.isDir && !r.deleted && r.stamp == stamp
  {
    Row(user, parent, name, false, Some(o), size, false, stamp)
  }

  function NewFolder(user: Id, parent: Option<Id>, name: string, stamp: nat): (r: Row)
    ensures r.user == user && r.parent == parent && r.name == name && r.obj == None && r.size == 0
    ensures r.isDir && !r.deleted && r.stamp == stamp
  {
    Row(user, parent, name, true, None, 0, false, stamp)
  }

  // Request fields spell "no parent" as 0.
  function ParentField(p: Id): (r: Option<Id>)
    ensures p == 0 <==> r == None
    ensures p != 0 ==> r == Some(p)
  {
    if p == 0 then None else Some(p)
  }

  // What completing an upload does to the objects: one more reference to the object of the
  // hash, its content moved to the bucket where its blob was missing, or a new object.
  ghost predicate StoredByHash(before: Objects, after: Objects, o: Id, nextObj: Id, blobs: Blobs, bucket: string,
    x: Obj, sure: bool) {
    if HashTaken(before, x.hash) then
      && o in before && before[o].hash == x.hash
      && var moved := before[o].(loc := Loc(bucket, before[o].loc.path), size := x.size,
           refCount := before[o].refCount + 1);
        && (after == Recounted(before, o, 1) || after == before[o := moved])
        && (before[o].loc !in blobs ==> after == before[o := moved])
        && (before[o].loc in blobs && sure ==> after == Recounted(before, o, 1))
    else
      o == nextObj && after == before[o := x]
  }

  // The same for an upload to a path.
  ghost predicate StoredByPath(before: Objects, after: Objects, o: Id, nextObj: Id, blobs: Blobs, x: Obj, sure: bool) {
    if NoneAt(before, x.loc) then
      o == nextObj && after == before[o := x]
    else
      && o in before && before[o].loc == x.loc
      && var resized := before[o].(size := x.size, refCount := before[o].refCount + 1);
        && (after == Recounted(before, o, 1) || after == before[o := resized])
        && (x.loc !in blobs ==> after == before[o := resized])
        && (x.loc in blobs && sure ==> after == Recounted(before, o, 1))
  }

  // The cache can answer for the hash with an object that has left the table.
  ghost predicate GhostFor(objs: Objects, cache: ObjectCache, hash: string) {
    hash in cache.hashes && cache.hashes[hash] in cache.ids && cache.hashes[hash] !in objs
  }

  // The cache can answer for the hash without the database.
  predicate Answers(cache: ObjectCache, hash: string) {
    hash in cache.hashes && cache.hashes[hash] in cache.ids
  }

  // Which of three calls fail while a finished download is stored: the write, the lookup of
  // an object that is there already, and the clean-up.
  datatype StoreFaults = StoreFaults(put: bool, lookup: bool, remove: bool)

  // Entries that stand for the object found, which has left the table, still lead to it.
  ghost predicate LeadsTo(cache: ObjectCache, hash: string, o: Id) {
    hash in cache.hashes && cache.hashes[hash] == o
  }

  ghost predicate StillLeads(before: ObjectCache, after: ObjectCache, o: Id) {
    forall hash :: LeadsTo(before, hash, o) ==> LeadsTo(after, hash, o)
  }

  lemma SchemaWithout(t: Table, objs: Objects, nextRow: Id, nextObj: Id, i: Id)
    requires Schema(t, objs, nextRow, nextObj) && Childless(t, i)
    ensures Schema(t - {i}, objs, nextRow, nextObj)
  {}

  lemma LeavesGhost(objs: Objects, cache: ObjectCache, o: Id, x: Obj)
    requires o !in objs
    ensures !NoGhosts(objs, Remember(cache, o, x))
  {
    assert o in Remember(cache, o, x).ids;
  }

  lemma RepairLeads(cache: ObjectCache, o: Id, x: Obj, l: Loc)
    ensures StillLeads(cache, cache, o) && StillLeads(cache, Remember(cache, o, x), o)
    ensures StillLeads(cache, Remember(ObjectCache(cache.ids, cache.hashes, cache.paths - {l}), o, x), o)
  {}

  predicate LiveFolder(t: Table, user: Id, p: Id) {
    p in t && Sees(LiveOf(user), t[p]) && t[p].isDir
  }

  // The parent a request names exists, is live, and belongs to the user.
  predicate TargetOk(t: Table, user: Id, target: Option<Id>) {
    target.Some? && target.value != 0 ==> LiveFolder(t, user, target.value)
  }

  // `parent_id IS NULL` when the request names no parent or parent 0.
  function Place(target: Option<Id>): Option<Id> {
    if target == Some(0) then None else target
  }

  // A live row of the user with this name directly under the target.
  predicate NameInUse(t: Table, user: Id, target: Option<Id>, name: string) {
    exists i :: i in t && Sees(LiveOf(user), t[i]) && t[i].name == name && t[i].parent == Place(target)
  }

  predicate FolderNameInUse(t: Table, user: Id, target: Option<Id>, name: string) {
    exists i :: i in t && Sees(LiveOf(user), t[i]) && t[i].isDir && t[i].name == name && t[i].parent == Place(target)
  }

  // The listed rows that are live and the user's own.
  function Selected(t: Table, user: Id, ids: seq<Id>): (r: set<Id>)
    ensures forall i :: i in r <==> i in t && i in ids && t[i].user == user && !t[i].deleted
  {
    set i | i in t && i in ids && Sees(LiveOf(user), t[i])
  }

  function Recycled(t: Table, ids: set<Id>, stamp: nat): (r: Table)
    ensures r.Keys == t.Keys
    ensures forall i :: i in t && i !in ids ==> r[i] == t[i]
    ensures forall i :: i in t && i in ids ==>
      r[i].deleted && r[i].stamp == stamp && r[i].(deleted := t[i].deleted, stamp := t[i].stamp) == t[i]
  {
    map i | i in t :: if i in ids then t[i].(deleted := true, stamp := stamp) else t[i]
  }

  function Reparented(t: Table, ids: set<Id>, target: Option<Id>, stamp: nat): (r: Table)
    ensures r.Keys == t.Keys
    ensures forall i :: i in t && i !in ids ==> r[i] == t[i]
    ensures forall i :: i in t && i in ids ==>
      r[i].parent == target && r[i].stamp == stamp && r[i].(parent := t[i].parent, stamp := t[i].stamp) == t[i]
  {
    map i | i in t :: if i in ids then t[i].(parent := target, stamp := stamp) else t[i]
  }

  // ---- What the move guard checks -----------------------------------------

  // The walk from i meets only live rows of the user before its n-th step.
  ghost predicate OpenWalk(t: Table, user: Id, i: Id, n: nat) {
    forall k: nat :: 0 < k < n ==>
      Up(t, i, k).Some? && Up(t, i, k).value in t && Sees(LiveOf(user), t[Up(t, i, k).value])
  }

  // What isChildFolder answers: the walk from the folder reaches anc without passing
  // a recycled or foreign row.
  ghost predicate WalkFinds(t: Table, user: Id, folder: Id, anc: Id) {
    && LiveFolder(t, user, folder)
    && exists n: nat :: n > 0 && Up(t, folder, n) == Some(anc) && OpenWalk(t, user, folder, n)
  }

  ghost predicate AncestorsLive(t: Table, user: Id, target: Option<Id>) {
    target.Some? ==> forall n: nat :: Up(t, target.value, n).Some? ==>
      Up(t, target.value, n).value in t && Sees(LiveOf(user), t[Up(t, target.value, n).value])
  }

  // The moved row m is an ancestor of the target that the guard cannot see.
  ghost predicate HiddenAncestor(t: Table, user: Id, target: Option<Id>, m: Id) {
    target.Some? && exists n: nat :: n > 0 && Up(t, target.value, n) == Some(m) && !OpenWalk(t, user, target.value, n)
  }

  ghost predicate GuardPasses(t: Table, user: Id, ids: seq<Id>, target: Option<Id>) {
    target.Some? && target.value != 0 ==>
      LiveFolder(t, user, target.value) &&
      forall m :: m in ids ==> m != target.value && !WalkFinds(t, user, target.value, m)
  }

  // When the guard lets a move pass, the only danger left is an ancestor behind a
  // recycled or foreign row.
  lemma GuardLeavesHidden(t: Table, user: Id, ids: seq<Id>, target: Option<Id>, moved: set<Id>)
    requires GuardPasses(t, user, ids, target) && target != Some(0) && forall m :: m in moved ==> m in ids
    ensures Clear(t, moved, target) <==> forall m :: m in moved ==> !HiddenAncestor(t, user, target, m)
    ensures AncestorsLive(t, user, target) ==> Clear(t, moved, target)
  {
    if target.Some? {
      if forall m :: m in moved ==> !HiddenAncestor(t, user, target, m) {
        forall m, n: nat | m in moved ensures Up(t, target.value, n) != Some(m) {
          assert Up(t, target.value, 0) == Some(target.value);
          assert !HiddenAncestor(t, user, target, m) && !WalkFinds(t, user, target.value, m);
        }
      }
      if AncestorsLive(t, user, target) {
        forall m | m in moved ensures !HiddenAncestor(t, user, target, m) {
          forall n: nat | n > 0 && Up(t, target.value, n) == Some(m) ensures OpenWalk(t, user, target.value, n) {
            forall k: nat | 0 < k < n ensures Up(t, target.value, k).Some? { UpPrefix(t, target.value, k, n); }
          }
        }
      }
    }
  }

  // With live ancestors the guard sees exactly the proper ancestors of the target.
  lemma LiveAncestorsAreSeen(t: Table, user: Id, folder: Id, anc: Id)
    requires LiveFolder(t, user, folder) && AncestorsLive(t, user, Some(folder))
    ensures WalkFinds(t, user, folder, anc) <==> ProperlyUnder(t, folder, anc)
  {
    if n: nat :| n > 0 && Up(t, folder, n) == Some(anc) {
      forall k: nat | 0 < k < n ensures Up(t, folder, k).Some? { UpPrefix(t, folder, k, n); }
      assert OpenWalk(t, user, folder, n);
    }
  }

  lemma GuardWithLiveAncestors(t: Table, user: Id, ids: seq<Id>, target: Option<Id>)
    ensures target.Some? && target.value != 0 && AncestorsLive(t, user, target) ==>
      (GuardPasses(t, user, ids, target) <==>
        && LiveFolder(t, user, target.value)
        && forall m :: m in ids ==> m != target.value && !ProperlyUnder(t, target.value, m))
  {
    hide WalkFinds, ProperlyUnder, AncestorsLive;
    if target.Some? && AncestorsLive(t, user, target) && LiveFolder(t, user, target.value) {
      forall m ensures WalkFinds(t, user, target.value, m) <==> ProperlyUnder(t, target.value, m) {
        LiveAncestorsAreSeen(t, user, target.value, m);
      }
    }
  }

  ghost predicate MoveAllowed(t: Table, user: Id, ids: seq<Id>, target: Option<Id>) {
    GuardPasses(t, user, ids, target) && MoveFits(t, user, ids, target)
  }

  // The checks on the rows that are moved, and what the database refuses.
  predicate MoveFits(t: Table, user: Id, ids: seq<Id>, target: Option<Id>) {
    var s := Selected(t, user, ids);
    && |s| == |ids|
    && (target == Some(0) ==> s == {})
    && (forall f :: f in s ==> !NameInUse(t, user, target, t[f].name))
    && (target.Some? ==> forall f, g :: f in s && g in s && f != g ==> t[f].name != t[g].name)
  }

  // The database accepts the batch update exactly when names differ and the target exists.
  lemma MoveStorable(t: Table, user: Id, ids: seq<Id>, target: Option<Id>, stamp: nat)
    requires UniqueNames(t) && ParentsExist(t) && 0 !in t
    requires target.Some? && target.value != 0 ==> target.value in t
    requires forall f :: f in Selected(t, user, ids) ==> !NameInUse(t, user, target, t[f].name)
    ensures var s := Selected(t, user, ids); var t' := Reparented(t, s, target, stamp);
      (UniqueNames(t') && ParentsExist(t')) <==>
      ((target == Some(0) ==> s == {}) &&
       (target.Some? ==> forall f, g :: f in s && g in s && f != g ==> t[f].name != t[g].name))
  {
    var s := Selected(t, user, ids);
    var t' := Reparented(t, s, target, stamp);
    if target.Some? && target.value != 0 {
      if UniqueNames(t') {
        forall f, g | f in s && g in s && f != g ensures t[f].name != t[g].name {
          assert !SameName(t'[f], t'[g]);
        }
      }
      if forall f, g :: f in s && g in s && f != g ==> t[f].name != t[g].name {
        forall i, j | i in t' && j in t' && i != j && t'[i].parent.Some? ensures !SameName(t'[i], t'[j]) {
          if i in s && j !in s { assert !NameInUse(t, user, target, t[i].name); }
          if i !in s && j in s { assert !NameInUse(t, user, target, t[j].name); }
        }
      }
    } else if target == Some(0) && s != {} {
      var f :| f in s;
      assert t'[f].parent == Some(0);
    } else if target == Some(0) {
      assert t' == t;
    }
  }

  lemma MoveVerdict(t: Table, user: Id, ids: seq<Id>, target: Option<Id>, stamp: nat)
    requires UniqueNames(t) && ParentsExist(t) && 0 !in t
    ensures var s := Selected(t, user, ids); var t' := Reparented(t, s, target, stamp);
      MoveAllowed(t, user, ids, target) <==>
        && GuardPasses(t, user, ids, target) && |s| == |ids|
        && (forall f :: f in s ==> !NameInUse(t, user, target, t[f].name))
        && UniqueNames(t') && ParentsExist(t')
  {
    if GuardPasses(t, user, ids, target) &&
       forall f :: f in Selected(t, user, ids) ==> !NameInUse(t, user, target, t[f].name) {
      MoveStorable(t, user, ids, target, stamp);
    }
  }

  // ---- What a copy may do, and when it succeeds ----------------------------

  // t0 with new rows, numbered from lo, each under target or under another new row.
  ghost predicate GrownUnder(t0: Table, t: Table, lo: Id, hi: Id, target: Option<Id>) {
    && lo <= hi
    && (forall x :: x in t0 ==> x in t && t[x] == t0[x])
    && (forall x :: x in t && x !in t0 ==>
         lo <= x < hi && (t[x].parent == target || (t[x].parent.Some? && t[x].parent.value >= lo)))
  }

  ghost predicate CopyAllowed(base: Table, t: Table, user: Id, ids: seq<Id>, target: Option<Id>) {
    var s := Selected(base, user, ids);
    && TargetOk(t, user, target) && |s| == |ids|
    && (target == Some(0) ==> s == {})
    && (forall f :: f in s ==> !NameInUse(t, user, target, base[f].name) && NoStrangers(base, user, f))
    && (forall f, g :: f in s && g in s && f != g ==> base[f].name != base[g].name)
  }

  lemma GrownTrans(a: Table, b: Table, c: Table, lo: Id, mid: Id, hi: Id, target: Option<Id>)
    requires GrownUnder(a, b, lo, mid, target) && GrownUnder(b, c, mid, hi, target)
    ensures GrownUnder(a, c, lo, hi, target)
  {}

  lemma GrownRows(t0: Table, t: Table, lo: Id, hi: Id, target: Option<Id>)
    ensures GrownUnder(t0, t0, lo, lo, target)
    ensures GrownUnder(t0, t, lo, hi, target) ==> lo <= hi && forall x :: x in t0 ==> x in t && t[x] == t0[x]
  {}

  lemma GrownBelowChild(a: Table, b: Table, c: Table, n: Id, hi: Id, r: Row, target: Option<Id>)
    requires n !in a && b == a[n := r] && r.parent == target && GrownUnder(b, c, n + 1, hi, Some(n))
    ensures GrownUnder(a, c, n, hi, target)
  {}

  lemma GrownQuiet(base: Table, t0: Table, t: Table, objs: Objects, lo: Id, hi: Id, nextObj: Id, target: Option<Id>,
    zone: set<Id>)
    requires Quiet(base, t0, zone) && GrownUnder(t0, t, lo, hi, target) && zone <= base.Keys
    requires Schema(t0, objs, lo, nextObj) && (target.Some? ==> target.value !in zone)
    ensures Quiet(base, t, zone)
  {
    hide UniqueNames, UniqueHashes;
  }

  lemma GrownKeeps(t0: Table, t: Table, lo: Id, hi: Id, user: Id, target: Option<Id>)
    requires GrownUnder(t0, t, lo, hi, target) && TargetOk(t0, user, target)
    ensures TargetOk(t, user, target) && lo <= hi && forall x :: x in t0 ==> x in t && t[x] == t0[x]
  {}

  // Copying the children of f into the fresh folder n can fail only on a stranger.
  lemma ChildrenAllowed(base: Table, t: Table, user: Id, f: Id, n: Id, ch: seq<Id>)
    requires f in base && base[f].isDir && UniqueNames(base) && n > 0 && LiveFolder(t, user, n) && Childless(t, n)
    requires (forall c :: c in Kids(base, Live, f) <==> c in ch) && |ch| == |Kids(base, Live, f)|
    ensures Selected(base, user, ch) == Kids(base, LiveOf(user), f)
    ensures CopyAllowed(base, t, user, ch, Some(n)) <==> NoStrangers(base, user, f)
  {
    var s := Selected(base, user, ch);
    forall c | c in base && Sees(LiveOf(user), base[c]) ensures c in s <==> c in Kids(base, LiveOf(user), f) {
      assert c in Kids(base, Live, f) <==> c in ch;
    }
    NoStrangersUnfold(base, user, f);
    assert s <= Kids(base, Live, f);
    if |s| == |ch| { SubsetFull(s, Kids(base, Live, f)); }
    forall c ensures !NameInUse(t, user, Some(n), c) {}
    forall c, d | c in s && d in s && c != d ensures base[c].name != base[d].name {
      assert !SameName(base[c], base[d]);
    }
  }

  lemma SubsetFull(a: set<Id>, b: set<Id>)
    requires a <= b && |a| == |b|
    ensures a == b
  {
    if x :| x in b && x !in a { SubsetSize(a, b - {x}); }
  }

  // The zone below a folder is smaller than the zone that contains it.
  lemma ChildZone(base: Table, user: Id, f: Id)
    requires Acyclic(base) && f in base && base[f].isDir
    ensures Zone(base, user, Kids(base, LiveOf(user), f)) < Sub(base, LiveOf(user), f)
  {
    SubUnfold(base, LiveOf(user), f);
    forall c | c in Kids(base, LiveOf(user), f) ensures f !in Sub(base, LiveOf(user), c) {
      NotBelowKid(base, LiveOf(user), c, f);
    }
    assert f in Sub(base, LiveOf(user), f);
  }

  lemma QuietLess(base: Table, t: Table, zone: set<Id>, less: set<Id>)
    requires Quiet(base, t, zone) && less <= zone
    ensures Quiet(base, t, less)
  {}

  // The INSERT of a copied row passes once the name check has passed, unless parent 0 was asked for.
  lemma CopyInsertable(t: Table, objs: Objects, user: Id, target: Option<Id>, r: Row)
    requires 0 !in t && TargetOk(t, user, target) && !NameInUse(t, user, target, r.name)
    requires r.user == user && r.parent == target && !r.deleted && (r.obj.Some? ==> r.obj.value in objs)
    ensures Insertable(t, objs, r) <==> target != Some(0)
    ensures Insertable(t, objs, r) && target.Some? ==> target.value in t
  {}

  // Names under the target after the first i copies.
  ghost predicate NamesAfter(t0: Table, t: Table, user: Id, target: Option<Id>, base: Table, found: seq<Id>, i: nat) {
    i <= |found| && (forall k :: 0 <= k < i ==> found[k] in base) &&
    forall name :: NameInUse(t, user, target, name) <==>
      NameInUse(t0, user, target, name) || exists k :: 0 <= k < i && base[found[k]].name == name
  }

  // The conditions a copy has to meet, file by file in the order of the loop.
  ghost predicate FileAllowed(base: Table, t0: Table, user: Id, target: Option<Id>, found: seq<Id>, i: nat)
    requires i < |found|
  {
    && found[i] in base && target != Some(0)
    && !NameInUse(t0, user, target, base[found[i]].name) && NoStrangers(base, user, found[i])
    && forall k :: 0 <= k < i && found[k] in base ==> base[found[k]].name != base[found[i]].name
  }

  lemma AllowedNeeds(base: Table, t: Table, user: Id, ids: seq<Id>, target: Option<Id>)
    requires CopyAllowed(base, t, user, ids, target)
    ensures TargetOk(t, user, target) && |Selected(base, user, ids)| == |ids|
  {}

  lemma BatchVerdict(base: Table, t0: Table, user: Id, ids: seq<Id>, target: Option<Id>, found: seq<Id>)
    requires TargetOk(t0, user, target) && |found| == |ids|
    requires forall x :: x in Selected(base, user, ids) <==> x in found
    requires |Selected(base, user, ids)| == |found|
    requires forall j, k :: 0 <= j < k < |found| ==> found[j] != found[k]
    ensures CopyAllowed(base, t0, user, ids, target) <==>
      forall i :: 0 <= i < |found| ==> FileAllowed(base, t0, user, target, found, i)
  {
    hide NameInUse, NoStrangers, TargetOk;
    var s := Selected(base, user, ids);
    if CopyAllowed(base, t0, user, ids, target) {
      forall i | 0 <= i < |found| ensures FileAllowed(base, t0, user, target, found, i) {
        assert found[i] in found && found[i] in s;
        forall k | 0 <= k < i ensures found[k] in s { assert found[k] in found; }
      }
    }
    if forall i :: 0 <= i < |found| ==> FileAllowed(base, t0, user, target, found, i) {
      forall f | f in s
        ensures target != Some(0) && !NameInUse(t0, user, target, base[f].name) && NoStrangers(base, user, f)
      {
        var i :| 0 <= i < |found| && found[i] == f;
        assert FileAllowed(base, t0, user, target, found, i);
      }
      forall f, g | f in s && g in s && f != g ensures base[f].name != base[g].name {
        var i :| 0 <= i < |found| && found[i] == f;
        var j :| 0 <= j < |found| && found[j] == g;
        assert FileAllowed(base, t0, user, target, found, i) && FileAllowed(base, t0, user, target, found, j);
      }
    }
  }

  lemma NamesStep(t0: Table, t1: Table, t: Table, user: Id, target: Option<Id>, base: Table, found: seq<Id>, i: nat)
    requires i < |found| && found[i] in base && NamesAfter(t0, t1, user, target, base, found, i)
    requires NameAdded(t1, t, user, target, base[found[i]].name)
    ensures NamesAfter(t0, t, user, target, base, found, i + 1)
  {
    hide NameInUse;
  }

  // The state of the copy loop after i files.
  ghost predicate CopyLoop(base: Table, t0: Table, t: Table, user: Id, target: Option<Id>, found: seq<Id>, i: nat,
                           copies: seq<map<Id, Id>>, lo: Id, hi: Id, zone: set<Id>) {
    && i <= |found| && GrownUnder(t0, t, lo, hi, target) && Quiet(base, t, zone) && TargetOk(t, user, target)
    && CopyDone(base, t0, t, user, found[..i], target, copies, lo, hi)
    && NamesAfter(t0, t, user, target, base, found, i)
  }

  ghost predicate NameAdded(t: Table, t': Table, user: Id, target: Option<Id>, added: string) {
    forall name :: NameInUse(t', user, target, name) <==> NameInUse(t, user, target, name) || name == added
  }

  lemma CopyLoopStarts(base: Table, t: Table, user: Id, target: Option<Id>, found: seq<Id>, lo: Id, zone: set<Id>)
    requires Quiet(base, t, zone) && TargetOk(t, user, target)
    ensures CopyLoop(base, t, t, user, target, found, 0, [], lo, lo, zone)
  {}

  lemma CopyLoopSteps(base: Table, t0: Table, t1: Table, t: Table, objs: Objects, nextObj: Id, user: Id,
    target: Option<Id>, found: seq<Id>, i: nat, copies: seq<map<Id, Id>>, c: map<Id, Id>, lo: Id, mid: Id, hi: Id,
    zone: set<Id>)
    requires i < |found| && CopyLoop(base, t0, t1, user, target, found, i, copies, lo, mid, zone)
    requires Schema(t1, objs, mid, nextObj) && GrownUnder(t1, t, mid, hi, target)
    requires zone <= base.Keys && found[i] in base && (target.Some? ==> target.value !in zone)
    ensures GrownUnder(t0, t, lo, hi, target)
    ensures (IsCopy(base, t, user, found[i], target, c) && t.Keys == t1.Keys + c.Values
        && (forall x :: x in c.Values ==> mid <= x < hi) && NameAdded(t1, t, user, target, base[found[i]].name)) ==>
      CopyLoop(base, t0, t, user, target, found, i + 1, copies + [c], lo, hi, zone)
  {
    hide IsCopy, AllCopies, NameInUse, Sub, UniqueNames, UniqueHashes;
    GrownTrans(t0, t1, t, lo, mid, hi, target);
    if IsCopy(base, t, user, found[i], target, c) && t.Keys == t1.Keys + c.Values &&
       (forall x :: x in c.Values ==> mid <= x < hi) && NameAdded(t1, t, user, target, base[found[i]].name) {
      GrownQuiet(base, t1, t, objs, mid, hi, nextObj, target, zone);
      GrownKeeps(t1, t, mid, hi, user, target);
      Extend(base, t0, t1, t, user, found, i, target, copies, c, lo, mid, hi);
      NamesStep(t0, t1, t, user, target, base, found, i);
    }
  }

  // What one round of the loop may use.
  lemma CopyLoopFacts(base: Table, t0: Table, t: Table, user: Id, target: Option<Id>, found: seq<Id>, i: nat,
                      copies: seq<map<Id, Id>>, lo: Id, hi: Id, zone: set<Id>, less: set<Id>)
    requires CopyLoop(base, t0, t, user, target, found, i, copies, lo, hi, zone) && less <= zone
    requires i < |found| && found[i] in base
    ensures Quiet(base, t, less) && TargetOk(t, user, target)
    ensures FileAllowed(base, t0, user, target, found, i) <==>
      target != Some(0) && !NameInUse(t, user, target, base[found[i]].name) && NoStrangers(base, user, found[i])
  {
    hide CopyDone, NameInUse, NoStrangers, GrownUnder;
    QuietLess(base, t, zone, less);
    FileVerdict(base, t0, t, user, target, found, i);
  }

  lemma CopyLoopEnds(base: Table, t0: Table, t: Table, user: Id, target: Option<Id>, found: seq<Id>,
                     copies: seq<map<Id, Id>>, lo: Id, hi: Id, zone: set<Id>)
    requires CopyLoop(base, t0, t, user, target, found, |found|, copies, lo, hi, zone)
    ensures CopyDone(base, t0, t, user, found, target, copies, lo, hi) && GrownUnder(t0, t, lo, hi, target)
  {
    assert found[..|found|] == found;
  }

  lemma SameSelection(base: Table, t: Table, user: Id, ids: seq<Id>)
    requires (forall x :: x in base ==> x in t && t[x] == base[x]) && forall i :: i in ids && i in t ==> i in base
    ensures Selected(t, user, ids) == Selected(base, user, ids)
  {}

  lemma StartOfCopy(base: Table, t: Table, user: Id, f: Id)
    requires f in base && UniqueNames(t) && Quiet(base, t, Sub(base, LiveOf(user), f))
    ensures Kids(t, Live, f) == Kids(base, Live, f) && UniqueNames(base)
  {
    SubUnfold(base, LiveOf(user), f);
    QuietKids(base, t, Sub(base, LiveOf(user), f), Live, f);
  }

  lemma StartOfChildren(base: Table, t: Table, user: Id, f: Id, n: Id, ch: seq<Id>)
    requires Acyclic(base) && f in base && base[f].isDir && UniqueNames(base) && n > 0 && LiveFolder(t, user, n)
    requires Childless(t, n)
    requires (forall c :: c in Kids(base, Live, f) <==> c in ch) && |ch| == |Kids(base, Live, f)|
    requires Quiet(base, t, Sub(base, LiveOf(user), f))
    ensures Selected(base, user, ch) == Kids(base, LiveOf(user), f)
    ensures CopyAllowed(base, t, user, ch, Some(n)) <==> NoStrangers(base, user, f)
    ensures Zone(base, user, Kids(base, LiveOf(user), f)) < Sub(base, LiveOf(user), f)
    ensures Quiet(base, t, Zone(base, user, Kids(base, LiveOf(user), f)))
    ensures Zone(base, user, Kids(base, LiveOf(user), f)) <= base.Keys
  {
    ChildrenAllowed(base, t, user, f, n, ch);
    ChildZone(base, user, f);
    QuietLess(base, t, Sub(base, LiveOf(user), f), Zone(base, user, Kids(base, LiveOf(user), f)));
  }

  // The children's copies and the new folder above them copy the folder.
  lemma FolderCopied(base: Table, t1: Table, t: Table, user: Id, f: Id, n: Id, target: Option<Id>, ch: seq<Id>,
    copies: seq<map<Id, Id>>, hi: Id)
    requires Acyclic(base) && f in base && base[f].isDir && n < hi
    requires n in t1 && n in t && t[n] == t1[n] && n !in base && SameLabel(base[f], t[n]) && t[n].parent == target
    requires forall x :: x in ch <==> x in Kids(base, LiveOf(user), f)
    requires forall i, j :: 0 <= i < j < |ch| ==> ch[i] != ch[j]
    requires CopyDone(base, t1, t, user, ch, Some(n), copies, n + 1, hi)
    ensures var c := Join(copies)[f := n];
      && IsCopy(base, t, user, f, target, c) && n in c.Values
      && t.Keys == t1.Keys + c.Values && forall x :: x in c.Values ==> n <= x < hi
  {
    hide IsCopy, AllCopies, Join;
    ChildrenCopied(base, t1, t, user, f, n, ch, copies, hi);
    Assemble(base, t, user, f, n, target, ch, copies);
    JoinedValues(copies, f, n);
  }

  lemma QuietBase(base: Table, t: Table, zone: set<Id>)
    requires Quiet(base, t, zone)
    ensures forall x :: x in base ==> x in t && t[x] == base[x]
  {}

  lemma StartOfBatch(base: Table, t: Table, user: Id, target: Option<Id>, found: seq<Id>, lo: Id)
    ensures CopyDone(base, t, t, user, found[..0], target, [], lo, lo)
    ensures GrownUnder(t, t, lo, lo, target) && NamesAfter(t, t, user, target, base, found, 0)
  {}

  lemma InZone(base: Table, user: Id, s: set<Id>, f: Id)
    requires f in s
    ensures Sub(base, LiveOf(user), f) <= Zone(base, user, s) <= base.Keys
  {}

  lemma SelectedRow(base: Table, user: Id, ids: seq<Id>, f: Id)
    requires f in Selected(base, user, ids)
    ensures f in base && Sees(LiveOf(user), base[f])
  {}

  lemma FileVerdict(base: Table, t0: Table, t1: Table, user: Id, target: Option<Id>, found: seq<Id>, i: nat)
    requires i < |found| && found[i] in base && NamesAfter(t0, t1, user, target, base, found, i)
    ensures FileAllowed(base, t0, user, target, found, i) <==>
      target != Some(0) && !NameInUse(t1, user, target, base[found[i]].name) && NoStrangers(base, user, found[i])
  {
    hide NameInUse, NoStrangers;
  }

  // What the inserted row of a copy looks like from every side.
  lemma InsertedCopy(base: Table, t0: Table, t: Table, objs: Objects, nextObj: Id, user: Id, f: Id, n: Id, r: Row,
    target: Option<Id>)
    requires Schema(t0, objs, n, nextObj) && Acyclic(t0) && t == t0[n := r]
    requires f in base && SameLabel(base[f], r) && r.parent == target && r.user == user && target != Some(0)
    requires target.Some? ==> target.value in t0 && target.value !in Sub(base, LiveOf(user), f)
    requires Quiet(base, t0, Sub(base, LiveOf(user), f))
    ensures Acyclic(t) && GrownUnder(t0, t, n, n + 1, target) && Quiet(base, t, Sub(base, LiveOf(user), f))
    ensures n !in base && n in t && t[n] == r && Childless(t, n) && (r.isDir ==> LiveFolder(t, user, n))
    ensures NameAdded(t0, t, user, target, r.name)
  {
    hide UniqueNames, UniqueHashes, Shaped, Acyclic, NameAdded;
    InsertAcyclic(t0, n, r);
    NameInserted(t0, t, user, n, r, target);
  }

  lemma NameInserted(t0: Table, t: Table, user: Id, n: Id, r: Row, target: Option<Id>)
    requires n !in t0 && t == t0[n := r] && r.parent == target && r.user == user && !r.deleted && target != Some(0)
    ensures NameAdded(t0, t, user, target, r.name)
  {
    forall name ensures NameInUse(t, user, target, name) <==> NameInUse(t0, user, target, name) || name == r.name {
      if NameInUse(t0, user, target, name) {
        var i :| i in t0 && Sees(LiveOf(user), t0[i]) && t0[i].name == name && t0[i].parent == Place(target);
        assert i in t && t[i] == t0[i];
      }
      if name == r.name { assert t[n] == r && n in t; }
    }
  }

  // Rows added below the new folder take no name under the target.
  lemma NamesBelowChild(t0: Table, t1: Table, t: Table, n: Id, hi: Id, user: Id, target: Option<Id>, added: string)
    requires NameAdded(t0, t1, user, target, added)
    requires GrownUnder(t1, t, n + 1, hi, Some(n)) && (target.Some? ==> target.value < n)
    ensures NameAdded(t0, t, user, target, added)
  {
    forall name ensures NameInUse(t, user, target, name) <==> NameInUse(t1, user, target, name) {
      if NameInUse(t1, user, target, name) {
        var i :| i in t1 && Sees(LiveOf(user), t1[i]) && t1[i].name == name && t1[i].parent == Place(target);
        assert i in t && t[i] == t1[i];
      }
    }
  }

  lemma TargetOlder(t: Table, objs: Objects, nextRow: Id, nextObj: Id, user: Id, target: Option<Id>)
    requires Schema(t, objs, nextRow, nextObj) && TargetOk(t, user, target)
    ensures target.Some? ==> target.value < nextRow
  {}

  // What CopyRow needs to know about its source and its tables.
  lemma SourceRow(base: Table, t: Table, objs: Objects, nextRow: Id, nextObj: Id, user: Id, f: Id)
    requires f in base && Quiet(base, t, Sub(base, LiveOf(user), f)) && Schema(t, objs, nextRow, nextObj)
    ensures f in t && t[f] == base[f] && 0 !in t && nextRow !in t && nextRow > 0
    ensures (t[f].isDir <==> t[f].obj.None?) && (t[f].obj.Some? ==> t[f].obj.value in objs)
    ensures forall i :: i in t ==> 0 < i < nextRow
  {
    hide UniqueNames, UniqueHashes, ParentsExist;
  }

  // The answer to an upload by hash, of which there is at most one object: the upload is asked
  // for, with the reason, when there is none, when its size is another one, or when its content
  // is missing; otherwise a free name decides.
  ghost predicate Answered(objs: Objects, blobs: Blobs, hash: string, size: int, free: bool, r: UploadReply) {
    && (r == NeedUpload("hash_not_found") <==> forall o :: o in objs ==> objs[o].hash != hash)
    && (r == NeedUpload("size_mismatch") <==>
         exists o :: o in objs && objs[o].hash == hash && size > 0 && objs[o].size > 0 && size != objs[o].size)
    && (r == NeedUpload("object_missing") <==>
         exists o :: o in objs && objs[o].hash == hash && objs[o].loc !in blobs &&
           (size <= 0 || objs[o].size <= 0 || size == objs[o].size))
    && (r.Rejected? <==>
         exists o :: !free && o in objs && objs[o].hash == hash && objs[o].loc in blobs &&
           (size <= 0 || objs[o].size <= 0 || size == objs[o].size))
    && (r.Instant? <==>
         exists o :: free && o in objs && objs[o].hash == hash && objs[o].loc in blobs &&
           (size <= 0 || objs[o].size <= 0 || size == objs[o].size))
  }

  lemma AnswersNone(objs: Objects, blobs: Blobs, hash: string, size: int, free: bool)
    requires !HashTaken(objs, hash)
    ensures Answered(objs, blobs, hash, size, free, NeedUpload("hash_not_found"))
  {}

  lemma AnswersFound(objs: Objects, blobs: Blobs, hash: string, size: int, free: bool, o: Id, r: UploadReply)
    requires UniqueHashes(objs) && o in objs && objs[o].hash == hash
    requires
      if size > 0 && objs[o].size > 0 && size != objs[o].size then r == NeedUpload("size_mismatch")
      else if objs[o].loc !in blobs then r == NeedUpload("object_missing")
      else if free then r.Instant?
      else r.Rejected?
    ensures Answered(objs, blobs, hash, size, free, r)
  {
    assert "hash_not_found" != "size_mismatch" && "size_mismatch"[0] != "object_missing"[0];
    assert "hash_not_found"[0] != "object_missing"[0];
    forall p | p in objs && objs[p].hash == hash ensures p == o {}
  }

  lemma AllowedTarget(t: Table, user: Id, ids: seq<Id>, target: Option<Id>)
    requires CopyAllowed(t, t, user, ids, target)
    ensures TargetOk(t, user, target)
  {}

  lemma SelectedAll(t: Table, user: Id, ids: seq<Id>)
    requires |Selected(t, user, ids)| == |ids|
    ensures forall i :: i in ids <==> i in Selected(t, user, ids)
  {
    var s := Selected(t, user, ids);
    forall i | i in ids ensures i in s {
      if i !in s {
        SubsetSize(s, Elements(ids) - {i});
        ElementsSize(ids);
      }
    }
  }

  // Where completing an upload writes when the object exists.
  lemma ExistingOpen(t: Table, objs: Objects, blobs: Blobs, bucket: string, userName: string, hash: string, o: Id,
    obj: Obj, data: Bytes)
    ensures PathOpen(objs, bucket, userName, hash) && o in objs && objs[o] == obj && obj.hash == hash ==>
      && NoOtherAt(objs, hash, Loc(bucket, obj.loc.path))
      && OthersKeep(t, objs, blobs, blobs[Loc(bucket, obj.loc.path) := data], hash)
    ensures Exact(t, objs) && Placed(t, objs, blobs) && o in objs ==> objs[o].loc in blobs
    ensures o in objs && objs[o].hash == hash ==> HashTaken(objs, hash)
  {
    if o in objs {
      UnusedIff(t, o);
      if Exact(t, objs) { var i :| i in t && t[i].obj == Some(o); }
      if NoOtherAt(objs, hash, Loc(bucket, obj.loc.path)) {
        WriteStaysPlaced(t, objs, hash, Loc(bucket, obj.loc.path), data, blobs);
      }
    }
  }

  lemma NewOpen(t: Table, objs: Objects, blobs: Blobs, bucket: string, userName: string, hash: string)
    ensures !HashTaken(objs, hash) && PathOpen(objs, bucket, userName, hash) ==>
      NoneAt(objs, Loc(bucket, BuildObjectName(userName, hash)))
  {
    if !HashTaken(objs, hash) { FreeHash(objs, hash, Loc(bucket, BuildObjectName(userName, hash))); }
  }

  lemma AllIsOthers(t: Table, objs: Objects, before: Blobs, after: Blobs, hash: string)
    ensures AllKeep(t, objs, before, after) ==> OthersKeep(t, objs, before, after, hash)
  {}

  // Writing at a location and taking it away again.
  lemma FreshWrite(t: Table, objs: Objects, blobs: Blobs, l: Loc, data: Bytes)
    ensures AllKeep(t, objs, blobs, blobs)
    ensures NoneAt(objs, l) ==>
      AllKeep(t, objs, blobs, blobs[l := data]) && AllKeep(t, objs, blobs, blobs[l := data] - {l})
    ensures NoneAt(objs, l) && Placed(t, objs, blobs) ==>
      Placed(t, objs, blobs[l := data]) && Placed(t, objs, blobs[l := data] - {l})
    ensures Exact(t, objs) && !NoneAt(objs, l) ==> !Placed(t, objs, blobs[l := data] - {l})
  {
    if Exact(t, objs) && !NoneAt(objs, l) { LostContentShows(t, objs, l, blobs[l := data] - {l}); }
  }

  lemma InUseIsThere(t: Table, objs: Objects, blobs: Blobs, l: Loc)
    ensures Exact(t, objs) && Placed(t, objs, blobs) && !NoneAt(objs, l) ==> l in blobs
  {
    if Exact(t, objs) && Placed(t, objs, blobs) { AllContentThere(t, objs, blobs); }
  }

  lemma RootRow(t: Table, objs: Objects, user: Id, name: string, o: Id, size: int)
    ensures o in objs ==> Insertable(t, objs, NewFile(user, None, name, o, size, 0))
  {}

  lemma RecountAfter(objs: Objects, o: Id, x: Obj)
    ensures o in objs ==> Recounted(objs[o := x], o, 1) == objs[o := x.(refCount := x.refCount + 1)]
  {}

  lemma PathWrites(t: Table, objs: Objects, blobs: Blobs, l: Loc, data: Bytes)
    ensures AllKeep(t, objs, blobs, blobs)
    ensures l !in blobs || NoneAt(objs, l) ==>
      AllKeep(t, objs, blobs, blobs[l := data]) && AllKeep(t, objs, blobs, blobs[l := data] - {l})
  {}

  // A whole copy: complete subtrees, counted occurrences, and folders alone only if there was
  // no file to copy.
  lemma CopySucceeded(t0: Table, t: Table, objs0: Objects, objs: Objects, user: Id, ids: seq<Id>, files: seq<Id>,
    target: Option<Id>, copies: seq<map<Id, Id>>, lo: Id, hi: Id)
    requires Acyclic(t0) && CopyDone(t0, t0, t, user, files, target, copies, lo, hi) && Charged(objs0, objs, t0, t)
    requires |Selected(t0, user, ids)| == |ids| && (forall i :: i in ids <==> i in files)
    requires CopyAllowed(t0, t0, user, ids, target) && (forall x :: x in t0 ==> x < lo)
    requires forall j, k :: 0 <= j < k < |files| ==> files[j] != files[k]
    ensures |copies| == |files|
    ensures forall k :: 0 <= k < |files| ==> files[k] in t0 && copies[k].Keys == Sub(t0, Live, files[k])
    ensures objs.Keys == objs0.Keys && forall o :: o in objs ==>
      objs[o] == objs0[o].(refCount := objs0[o].refCount + Occurrences(t0, user, files, o))
    ensures FoldersOnly(t0, t) <==> forall k, x :: 0 <= k < |copies| && x in copies[k] ==> x in t0 && t0[x].isDir
  {
    hide CopyDone, Sub, Charged, Occurrences, Acyclic, FoldersOnly, CopyAllowed, Selected;
    CopyCounted(t0, t, objs0, objs, user, files, target, copies, lo, hi);
    CopyWhole(t0, t, user, ids, files, target, copies, lo, hi);
    CopiedFoldersIff(t0, t, user, files, target, copies, lo, hi);
  }

  lemma CopyCounted(t0: Table, t: Table, objs0: Objects, objs: Objects, user: Id, files: seq<Id>, target: Option<Id>,
    copies: seq<map<Id, Id>>, lo: Id, hi: Id)
    requires CopyDone(t0, t0, t, user, files, target, copies, lo, hi) && Charged(objs0, objs, t0, t)
    requires forall x :: x in t0 ==> x < lo
    ensures objs.Keys == objs0.Keys && forall o :: o in objs ==>
      objs[o] == objs0[o].(refCount := objs0[o].refCount + Occurrences(t0, user, files, o))
  {
    hide CopyDone, Occurrences, Refs;
    forall o | o in objs ensures Refs(t, o) == Refs(t0, o) + Occurrences(t0, user, files, o) {
      CopyOccurrences(t0, t0, t, user, files, target, copies, lo, hi, o);
    }
  }

  lemma CopyWhole(t0: Table, t: Table, user: Id, ids: seq<Id>, files: seq<Id>, target: Option<Id>,
    copies: seq<map<Id, Id>>, lo: Id, hi: Id)
    requires CopyDone(t0, t0, t, user, files, target, copies, lo, hi)
    requires |Selected(t0, user, ids)| == |ids| && (forall i :: i in ids <==> i in files)
    requires CopyAllowed(t0, t0, user, ids, target)
    ensures |copies| == |files|
    ensures forall k :: 0 <= k < |files| ==> files[k] in t0 && copies[k].Keys == Sub(t0, Live, files[k])
  {
    hide IsCopy, AllCopies, Sub, NoStrangers, NameInUse, Selected;
    SelectedAll(t0, user, ids);
    forall f | f in files ensures f in t0 && NoStrangers(t0, user, f) {
      assert f in ids;
      SelectedRow(t0, user, ids, f);
    }
    WholeSubtrees(t0, t, user, files, target, copies);
    forall k | 0 <= k < |files| ensures files[k] in t0 { assert files[k] in files; }
  }

  lemma CopiedFoldersIff(t0: Table, t: Table, user: Id, files: seq<Id>, target: Option<Id>, copies: seq<map<Id, Id>>,
    lo: Id, hi: Id)
    requires CopyDone(t0, t0, t, user, files, target, copies, lo, hi)
    ensures FoldersOnly(t0, t) <==> forall k, x :: 0 <= k < |copies| && x in copies[k] ==> x in t0 && t0[x].isDir
  {
    hide IsCopy, AllCopies;
    forall k, x | 0 <= k < |copies| && x in copies[k]
      ensures x in t0 && copies[k][x] in t && copies[k][x] !in t0 && t[copies[k][x]].isDir == t0[x].isDir
    {
      EachCopy(t0, t, user, files, target, copies, k);
      CopyAt(t0, t, user, files[k], target, copies[k], x);
    }
    forall y | y in t && y !in t0 && !t[y].isDir
      ensures exists k, x :: 0 <= k < |copies| && x in copies[k] && !(x in t0 && t0[x].isDir)
    {
      var k, x := FreshAt(copies, y);
      assert 0 <= k < |copies| && x in copies[k] && !(x in t0 && t0[x].isDir);
    }
  }

  lemma ChargedGrown(objs0: Objects, objs: Objects, t0: Table, t: Table, lo: Id, hi: Id, nextObj: Id,
    target: Option<Id>)
    requires Charged(objs0, objs, t0, t) && Schema(t, objs, hi, nextObj) && GrownUnder(t0, t, lo, hi, target)
    ensures Exact(t0, objs0) ==> Exact(t, objs)
    ensures Safe(t0, objs0) ==> Safe(t, objs)
  {
    hide UniqueNames, UniqueHashes, Shaped, ParentsExist;
    ChargedKeeps(objs0, objs, t0, t);
  }

  lemma QuietAtFirst(t: Table, objs: Objects, nextRow: Id, nextObj: Id, user: Id, ids: seq<Id>, target: Option<Id>)
    requires Schema(t, objs, nextRow, nextObj)
    ensures Quiet(t, t, Zone(t, user, Selected(t, user, ids))) && forall x :: x in t ==> x < nextRow
  {}

  // The folders whose listing a copy may change: the target, and those it has made.
  function CopyTouches(t0: Table, t: Table, target: Option<Id>): set<Id> {
    {CacheParent(target)} + (t.Keys - t0.Keys)
  }

  lemma PagesAfterCopy(user: Id, a: Snap, b: Snap, lo: Id, hi: Id, nextObj: Id, target: Option<Id>, q: Query)
    requires Added(user, a, b) && GrownUnder(a.rows, b.rows, lo, hi, target)
    requires Schema(a.rows, a.objs, lo, nextObj) && Schema(b.rows, b.objs, hi, nextObj)
    requires Coherent(a.rows, lo, a.pages, q)
    ensures Coherent(b.rows, hi, b.pages, q) <==>
      forall u: Id, p: Id :: p in CopyTouches(a.rows, b.rows, target) && Relevant(b.rows, hi, p) ==>
        PagesStand(a.rows, b.rows, b.pages, q, u, p)
    ensures a.rows == b.rows ==> Coherent(b.rows, hi, b.pages, q)
  {
    var touched := CopyTouches(a.rows, b.rows, target);
    forall u: Id, p: Id | p !in touched ensures FolderView(b.rows, u, p) == FolderView(a.rows, u, p) {
      NewRowsElsewhere(a.rows, a.objs, b.rows, b.objs, lo, hi, nextObj, target, p);
    }
    hide UniqueNames, UniqueHashes, Shaped, ObjectsExist, ParentsExist, FolderView;
    CoherentIff(a.rows, lo, a.pages, b.rows, hi, b.pages, q, touched);
  }

  lemma NewRowsElsewhere(t0: Table, objs0: Objects, t: Table, objs: Objects, lo: Id, hi: Id, nextObj: Id,
    target: Option<Id>, p: Id)
    requires GrownUnder(t0, t, lo, hi, target) && Schema(t0, objs0, lo, nextObj) && Schema(t, objs, hi, nextObj)
    requires p !in CopyTouches(t0, t, target)
    ensures forall x :: x in t && x !in t0 ==> t[x].parent != (if p == 0 then None else Some(p))
  {
    hide UniqueNames, UniqueHashes, Shaped, ObjectsExist;
  }

  lemma CopyOutcome(user: Id, a: Snap, b: Snap, blobs: Blobs)
    requires Copied(user, a, b)
    ensures Added(user, a, b) && SafeIffFolders(a, b)
    ensures Placed(a.rows, a.objs, blobs) ==> Placed(b.rows, b.objs, blobs)
  {
    if Placed(a.rows, a.objs, blobs) { RowsStayPlaced(a.rows, a.objs, b.rows, b.objs, blobs); }
  }

  class Service {
    const reliable: bool
    const lasting: bool              // no cached object entry expires in the middle of a call
    const query: Query
    const bucket: string
    var rows: Table
    var objs: Objects
    var nextRow: Id
    var nextObj: Id
    var blobs: Blobs
    var cache: ObjectCache
    var pages: map<string, Page>
    ghost var log: History

    ghost predicate Ok()
      reads this
    {
      Schema(rows, objs, nextRow, nextObj)
    }

    ghost predicate Counted()
      reads this
    {
      Exact(rows, objs)
    }

    ghost predicate Cached()
      reads this
    {
      CacheOk(objs, nextObj, cache)
    }

    ghost function Here(): Snap
      reads this
    {
      Snap(rows, objs, log, pages)
    }

    constructor (reliable: bool, lasting: bool, query: Query, bucket: string)
      ensures Ok() && Exact(rows, objs) && Cached() && NoGhosts(objs, cache) && Placed(rows, objs, blobs)
      ensures Acyclic(rows) && Coherent(rows, nextRow, pages, query)
      ensures this.reliable == reliable && this.lasting == lasting && this.query == query && this.bucket == bucket
      ensures rows == map[] && objs == map[] && blobs == map[] && log == [] && nextRow == 1 && nextObj == 1
    {
      this.reliable, this.lasting, this.query, this.bucket := reliable, lasting, query, bucket;
      rows, objs, nextRow, nextObj := map[], map[], 1, 1;
      blobs, cache, pages, log := map[], ObjectCache(map[], map[], map[]), map[], [];
      new;
      forall i: Id, n: nat | n > 0 ensures Up(rows, i, n) != Some(i) {
        assert Up(rows, i, 0) == Some(i) && Up(rows, i, 1) == None;
        if Up(rows, i, n).Some? { UpPrefix(rows, i, 1, n); }
      }
    }

    // ---- Calls that may fail ------------------------------------------------

    method InsertRow(r: Row) returns (id: Option<Id>)
      requires Ok() && (r.isDir <==> r.obj.None?)
      modifies `rows, `nextRow, `log
      ensures Ok()
      ensures id.None? ==> rows == old(rows) && nextRow == old(nextRow) && log == old(log)
      ensures id.Some? ==>
        && id.value == old(nextRow) && id.value !in old(rows) && Insertable(old(rows), objs, r)
        && rows == old(rows)[id.value := r] && nextRow == old(nextRow) + 1 && log == old(log) + [(rows, objs)]
      ensures reliable ==> (id.Some? <==> Insertable(old(rows), objs, r))
    {
      var f := Fault(reliable);
      if f || !Insertable(rows, objs, r) { return None; }
      InsertKeepsSchema(rows, objs, nextRow, nextObj, r);
      hide Schema, Insertable;
      id := Some(nextRow);
      rows := rows[nextRow := r];
      nextRow := nextRow + 1;
      log := log + [(rows, objs)];
    }

    method DeleteRow(i: Id) returns (ok: bool)
      requires Ok()
      modifies `rows, `log
      ensures Ok()
      ensures !ok ==> rows == old(rows) && log == old(log)
      ensures ok ==> Childless(old(rows), i) && rows == old(rows) - {i} && log == old(log) + [(rows, objs)]
      ensures reliable ==> (ok <==> Childless(old(rows), i))
      ensures old(Placed(rows, objs, blobs)) ==> Placed(rows, objs, blobs)
    {
      hide Placed, Schema, Childless;
      FewerRowsStayPlaced(rows, objs, rows - {i}, blobs);
      var f := Fault(reliable);
      if f || !Childless(rows, i) { return false; }
      SchemaWithout(rows, objs, nextRow, nextObj, i);
      rows := rows - {i};
      log := log + [(rows, objs)];
      ok := true;
    }

    // One UPDATE statement over user_file: all of it or nothing.
    method UpdateRows(t: Table) returns (ok: bool)
      requires Ok() && t.Keys == rows.Keys
      requires forall i :: i in t ==> t[i].isDir == rows[i].isDir && t[i].obj == rows[i].obj
      modifies `rows, `log
      ensures Ok()
      ensures !ok ==> rows == old(rows) && log == old(log)
      ensures ok ==> rows == t && log == old(log) + [(rows, objs)] && UniqueNames(t) && ParentsExist(t)
      ensures reliable ==> (ok <==> UniqueNames(t) && ParentsExist(t))
      ensures old(Placed(rows, objs, blobs)) ==> Placed(rows, objs, blobs)
    {
      hide Placed;
      UpdateStaysPlaced(rows, objs, t, blobs);
      var f := Fault(reliable);
      if f || !UniqueNames(t) || !ParentsExist(t) { return false; }
      rows := t;
      log := log + [(rows, objs)];
      ok := true;
    }

    method AddToRefCount(o: Id, d: int) returns (ok: bool)
      requires Ok()
      modifies `objs, `log
      ensures Ok()
      ensures !ok ==> objs == old(objs) && log == old(log)
      ensures ok ==> objs == Recounted(old(objs), o, d) && log == old(log) + [(rows, objs)]
      ensures reliable ==> ok
      ensures old(Placed(rows, objs, blobs)) ==> Placed(rows, objs, blobs)
    {
      hide Placed;
      CountStaysPlaced(rows, objs, o, d, blobs);
      var f := Fault(reliable);
      if f { return false; }
      objs := Recounted(objs, o, d);
      log := log + [(rows, objs)];
      ok := true;
    }

    method InsertObject(x: Obj) returns (id: Option<Id>)
      requires Ok()
      modifies `objs, `nextObj, `log
      ensures Ok()
      ensures id.None? ==> objs == old(objs) && nextObj == old(nextObj) && log == old(log)
      ensures id.Some? ==>
        && id.value == old(nextObj) && id.value !in old(objs) && !HashTaken(old(objs), x.hash)
        && objs == old(objs)[id.value := x] && nextObj == old(nextObj) + 1 && log == old(log) + [(rows, objs)]
      ensures reliable ==> (id.Some? <==> !HashTaken(old(objs), x.hash))
    {
      var f := Fault(reliable);
      if f || HashTaken(objs, x.hash) { return None; }
      InsertObjectKeepsSchema(rows, objs, nextRow, nextObj, x);
      hide Schema, HashTaken;
      id := Some(nextObj);
      objs := objs[nextObj := x];
      nextObj := nextObj + 1;
      log := log + [(rows, objs)];
    }

    method DeleteObject(o: Id) returns (ok: bool)
      requires Ok()
      modifies `objs, `log
      ensures Ok()
      ensures !ok ==> objs == old(objs) && log == old(log)
      ensures ok ==> Unused(rows, o) && objs == old(objs) - {o} && log == old(log) + [(rows, objs)]
      ensures reliable ==> (ok <==> Unused(rows, o))
    {
      var f := Fault(reliable);
      if f || !Unused(rows, o) { return false; }
      objs := objs - {o};
      log := log + [(rows, objs)];
      ok := true;
    }

    // UPDATE file_object SET bucket_name, object_name, size
    method RelocateObject(o: Id, loc: Loc, size: int) returns (ok: bool)
      requires Ok()
      modifies `objs, `log
      ensures Ok()
      ensures !ok ==> objs == old(objs) && log == old(log)
      ensures ok ==>
        && objs == (if o in old(objs) then old(objs)[o := old(objs)[o].(loc := loc, size := size)] else old(objs))
        && log == old(log) + [(rows, objs)]
      ensures reliable ==> ok
    {
      var f := Fault(reliable);
      if f { return false; }
      if o in objs { objs := objs[o := objs[o].(loc := loc, size := size)]; }
      log := log + [(rows, objs)];
      ok := true;
    }

    method PutBlob(l: Loc, data: Bytes) returns (ok: bool)
      modifies `blobs
      ensures blobs == if ok then old(blobs)[l := data] else old(blobs)
      ensures old(Placed(rows, objs, blobs)) ==> Placed(rows, objs, blobs)
      ensures reliable ==> ok
    {
      var fails: bool := *;
      ok := PutBlobUnless(l, data, fails);
    }

    method PutBlobUnless(l: Loc, data: Bytes, fails: bool) returns (ok: bool)
      modifies `blobs
      ensures ok == (reliable || !fails) && blobs == if ok then old(blobs)[l := data] else old(blobs)
      ensures old(Placed(rows, objs, blobs)) ==> Placed(rows, objs, blobs)
    {
      ok := reliable || !fails;
      if ok { blobs := blobs[l := data]; }
    }

    method RemoveBlob(l: Loc) returns (ok: bool)
      modifies `blobs
      ensures blobs == if ok then old(blobs) - {l} else old(blobs)
      ensures reliable ==> ok
    {
      var fails: bool := *;
      ok := RemoveBlobUnless(l, fails);
    }

    method RemoveBlobUnless(l: Loc, fails: bool) returns (ok: bool)
      modifies `blobs
      ensures ok == (reliable || !fails) && blobs == if ok then old(blobs) - {l} else old(blobs)
    {
      ok := reliable || !fails;
      if ok { blobs := blobs - {l}; }
    }

    // A storage error reads as "missing".
    method IsFileObjectAvailable(l: Loc) returns (there: bool)
      ensures there ==> l in blobs
      ensures reliable ==> (there <==> l in blobs)
    {
      var f := Fault(reliable);
      there := !f && l in blobs;
    }

    method Now() returns (stamp: nat) {
      stamp := *;
    }

    // ---- The object cache ---------------------------------------------------

    method CacheFileObject(o: Id, obj: Obj)
      modifies `cache
      ensures cache == Remember(old(cache), o, obj)
      ensures old(Cached()) && o < nextObj && (o in objs ==> objs[o] == obj) ==> Cached()
      ensures old(Cached() && NoGhosts(objs, cache)) && o in objs && o < nextObj && objs[o] == obj ==>
        NoGhosts(objs, cache)
    {
      if Cached() && o < nextObj && (o in objs ==> objs[o] == obj) { RememberOk(objs, nextObj, cache, o, obj); }
      cache := Remember(cache, o, obj);
    }

    method Forget(ids: set<Id>, hashes: set<string>, paths: set<Loc>)
      modifies `cache
      ensures cache == ObjectCache(old(cache).ids - ids, old(cache).hashes - hashes, old(cache).paths - paths)
      ensures old(Cached()) ==> Cached()
      ensures old(Cached() && NoGhosts(objs, cache)) ==> NoGhosts(objs, cache)
    {
      if Cached() { ForgetOk(objs, nextObj, cache, ids, hashes, paths); }
      cache := ObjectCache(cache.ids - ids, cache.hashes - hashes, cache.paths - paths);
    }

    method GetFileObjectById(o: Id) returns (r: Lookup)
      requires Ok()
      modifies `cache
      ensures r.Found? ==> r.id == o
      ensures reliable ==> !r.Failed?
      ensures r.NotFound? ==> o !in objs
      ensures old(Cached()) ==> Cached() && (r.Found? && o in objs ==> r.obj == objs[o])
      ensures old(Cached() && NoGhosts(objs, cache)) ==> NoGhosts(objs, cache) && (r.Found? ==> o in objs)
      ensures r.Found? && o !in objs ==> o in old(cache).ids
      ensures lasting && o in old(cache).ids ==> r == Found(o, old(cache).ids[o])
      ensures StillLeads(old(cache), cache, o)
    {
      var down: bool := *;
      r := FindById(o, down);
    }

    // A cached entry may have expired by the time it is read; `down` says whether the
    // database cannot be read.
    method FindById(o: Id, down: bool) returns (r: Lookup)
      requires Ok()
      modifies `cache
      ensures r.Found? ==> r.id == o
      ensures reliable ==> !r.Failed?
      ensures r.NotFound? ==> o !in objs
      ensures old(Cached()) ==> Cached() && (r.Found? && o in objs ==> r.obj == objs[o])
      ensures old(Cached() && NoGhosts(objs, cache)) ==> NoGhosts(objs, cache) && (r.Found? ==> o in objs)
      ensures r.Found? && o !in objs ==> o in old(cache).ids
      ensures lasting && o in old(cache).ids ==> r == Found(o, old(cache).ids[o])
      ensures StillLeads(old(cache), cache, o)
      ensures reliable || !down ==> !r.Failed?
      ensures r.Found? ==> o in old(cache).ids || reliable || !down
      ensures r.NotFound? ==> reliable || !down
    {
      var live: bool := *;
      if o in cache.ids && (live || lasting) {
        r := Found(o, cache.ids[o]);
        CacheFileObject(o, cache.ids[o]);
        return;
      }
      if down && !reliable { return Failed; }
      if o !in objs { return NotFound; }
      r := Found(o, objs[o]);
      CacheFileObject(o, objs[o]);
    }

    method GetFileObjectByHash(hash: string) returns (r: Lookup)
      requires Ok()
      modifies `cache
      ensures reliable ==> !r.Failed?
      ensures r.NotFound? ==> !HashTaken(objs, hash)
      ensures old(Cached()) ==> Cached()
      ensures old(Cached()) && r.Found? ==> r.id < nextObj
      ensures old(Cached()) && r.Found? && r.id in objs ==> r.obj == objs[r.id] && r.obj.hash == hash
      ensures r.Found? && r.id !in objs ==> GhostFor(objs, old(cache), hash) && LeadsTo(cache, hash, r.id)
      ensures lasting && GhostFor(objs, old(cache), hash) ==> r.Found? && r.id !in objs
      ensures old(Cached() && NoGhosts(objs, cache)) ==> NoGhosts(objs, cache) && (r.Found? ==> r.id in objs)
    {
      var down: bool := *;
      r := FindByHash(hash, down);
    }

    method FindByHash(hash: string, down: bool) returns (r: Lookup)
      requires Ok()
      modifies `cache
      ensures reliable ==> !r.Failed?
      ensures r.NotFound? ==> !HashTaken(objs, hash)
      ensures old(Cached()) ==> Cached()
      ensures old(Cached()) && r.Found? ==> r.id < nextObj
      ensures old(Cached()) && r.Found? && r.id in objs ==> r.obj == objs[r.id] && r.obj.hash == hash
      ensures r.Found? && r.id !in objs ==> GhostFor(objs, old(cache), hash) && LeadsTo(cache, hash, r.id)
      ensures lasting && GhostFor(objs, old(cache), hash) ==> r.Found? && r.id !in objs
      ensures old(Cached() && NoGhosts(objs, cache)) ==> NoGhosts(objs, cache) && (r.Found? ==> r.id in objs)
      ensures reliable || !down ==> !r.Failed?
      ensures down && !reliable && r.Found? ==> Answers(old(cache), hash)
      ensures lasting && Answers(old(cache), hash) ==> r.Found?
    {
      var live: bool := *;
      if hash in cache.hashes && (live || lasting) {
        var hit := FindById(cache.hashes[hash], down);
        if hit.Found? || hit.Failed? { return hit; }
        Forget({}, {hash}, {});
      }
      if down && !reliable { return Failed; }
      if o :| o in objs && objs[o].hash == hash {
        r := Found(o, objs[o]);
        CacheFileObject(o, objs[o]);
      } else {
        r := NotFound;
      }
    }

    method GetFileByObject(l: Loc) returns (r: Lookup)
      requires Ok()
      modifies `cache
      ensures reliable ==> !r.Failed?
      ensures r.NotFound? ==> forall o :: o in objs ==> objs[o].loc != l
      ensures old(Cached()) ==> Cached() && (r.Found? && r.id in objs ==> r.obj == objs[r.id] && r.obj.loc == l)
      ensures old(Cached() && NoGhosts(objs, cache)) ==> NoGhosts(objs, cache) && (r.Found? ==> r.id in objs)
      ensures lasting && l in old(cache).paths && old(cache).paths[l] in old(cache).ids ==>
        r == Found(old(cache).paths[l], old(cache).ids[old(cache).paths[l]])
    {
      var live: bool := *;
      if l in cache.paths && (live || lasting) {
        var hit := GetFileObjectById(cache.paths[l]);
        if hit.Found? || hit.Failed? { return hit; }
        Forget({}, {}, {l});
      }
      var f := Fault(reliable);
      if f { return Failed; }
      if o :| o in objs && objs[o].loc == l {
        r := Found(o, objs[o]);
        CacheFileObject(o, objs[o]);
      } else {
        r := NotFound;
      }
    }

    // ---- Objects and their counts -------------------------------------------

    method CreateFilesObject(x: Obj) returns (id: Option<Id>)
      requires Ok()
      modifies `objs, `nextObj, `log, `cache
      ensures Ok()
      ensures id.None? ==> objs == old(objs) && nextObj == old(nextObj) && log == old(log) && cache == old(cache)
      ensures id.Some? ==>
        && id.value == old(nextObj) && id.value !in old(objs) && !HashTaken(old(objs), x.hash)
        && objs == old(objs)[id.value := x] && nextObj == old(nextObj) + 1 && log == old(log) + [(rows, objs)]
        && cache == Remember(old(cache), id.value, x)
      ensures reliable ==> (id.Some? <==> !HashTaken(old(objs), x.hash))
      ensures old(Cached()) ==> Cached()
      ensures old(NoGhosts(objs, cache)) ==> NoGhosts(objs, cache)
    {
      hide Schema, HashTaken;
      id := InsertObject(x);
      if id.Some? { CacheFileObject(id.value, x); }
    }

    method IncreaseRefCount(o: Id) returns (ok: bool)
      requires Ok()
      modifies `objs, `log, `cache
      ensures Ok()
      ensures !ok ==> objs == old(objs) && log == old(log) && cache == old(cache)
      ensures ok ==> objs == Recounted(old(objs), o, 1) && log == old(log) + [(rows, objs)]
      ensures ok ==> cache == old(cache).(ids := old(cache).ids - {o})
      ensures reliable ==> ok
      ensures ok && old(CacheOkBut(objs, nextObj, cache, o)) ==> Cached()
      ensures old(Cached()) ==> Cached()
      ensures old(NoGhosts(objs, cache)) ==> NoGhosts(objs, cache)
      ensures old(Placed(rows, objs, blobs)) ==> Placed(rows, objs, blobs)
    {
      hide Placed;
      if Cached() { CacheOkImpliesBut(objs, nextObj, cache, o); }
      ok := AddToRefCount(o, 1);
      if ok { cache := cache.(ids := cache.ids - {o}); }
    }

    // Counts down to one; the last reference is left to the caller.
    method DecreaseRefCount(o: Id) returns (ok: bool, remain: int)
      requires Ok()
      modifies `objs, `log, `cache
      ensures Ok()
      ensures !ok ==> objs == old(objs) && log == old(log) && cache == old(cache)
      ensures ok ==> o in old(objs)
      ensures cache == old(cache) || cache == old(cache).(ids := old(cache).ids - {o})
      ensures ok && old(o in objs && objs[o].refCount > 1) ==>
        objs == Recounted(old(objs), o, -1) && remain == objs[o].refCount && log == old(log) + [(rows, objs)]
      ensures ok && old(o in objs && objs[o].refCount <= 1) ==>
        objs == old(objs) && remain == 0 && log == old(log) && cache == old(cache)
      ensures reliable ==> (ok <==> o in old(objs))
      ensures old(Cached()) ==> Cached()
      ensures old(NoGhosts(objs, cache)) ==> NoGhosts(objs, cache)
      ensures old(Placed(rows, objs, blobs)) ==> Placed(rows, objs, blobs)
    {
      hide Placed;
      var f := Fault(reliable);
      if f || o !in objs { return false, 0; }
      var count := objs[o].refCount;
      if count > 1 {
        ok := AddToRefCount(o, -1);
        if !ok { return false, 0; }
        cache := cache.(ids := cache.ids - {o});
        return true, count - 1;
      }
      return true, 0;
    }

    // Gives up one reference; the last one takes the blob and the object along.
    method RemoveObject(o: Id) returns (ok: bool)
      requires Ok()
      modifies `objs, `log, `cache, `blobs
      ensures Ok() && old(log) <= log
      ensures old(SafeOwing(rows, objs, o)) ==>
        && Safe(rows, objs) && SafeFrom(log, |old(log)|)
        && Emptied(old(objs), old(blobs), rows, objs, blobs, old(Placed(rows, objs, blobs)))
      ensures reliable && old(ExactOwing(rows, objs, o)) ==> ok && Exact(rows, objs)
      ensures ok ==> o in old(objs) && if old(objs[o].refCount) > 1
        then objs == Recounted(old(objs), o, -1) && blobs == old(blobs)
        else Unused(rows, o) && objs == old(objs) - {o} && blobs == old(blobs) - {old(objs[o].loc)}
      ensures Thinned(old(objs), objs)
      ensures ok ==> blobs == old(blobs) - LostBlobs(old(objs), objs)
      ensures old(Cached()) ==> Cached()
      ensures reliable && old(Cached() && NoGhosts(objs, cache)) ==> NoGhosts(objs, cache)
    {
      hide Schema, Exact, Safe, ExactOwing, SafeOwing, Unused, CacheOk, NoGhosts, Placed, Emptied, LostBlobs;
      GiveUp(rows, objs, o);
      NothingLost(objs, rows, blobs);
      LostByRemoval(objs, o);
      EmptiedCount(rows, objs, o, blobs);
      if o in objs && Unused(rows, o) { EmptiedOne(rows, objs, o, blobs); }
      var f := Fault(reliable);
      if f || o !in objs { return false; }
      var obj := objs[o];
      var remain;
      ok, remain := DecreaseRefCount(o);
      if !ok || remain > 0 { return; }
      ok := RemoveBlob(obj.loc);
      if !ok { return; }
      ok := DeleteObject(o);
      if !ok { return; }
      if old(Cached()) { RemovedFromBoth(old(objs), nextObj, old(cache), o); }
      Forget({o}, {obj.hash}, {obj.loc});
      var g := Fault(reliable);
      ok := !g;
    }

    // ---- The page cache -----------------------------------------------------

    // SCAN over all keys, deleting those the pattern matches.
    method DeleteByPattern(pattern: string)
      modifies `pages
      ensures pages == map k | k in old(pages) && !GlobMatch(pattern, k) :: old(pages)[k]
    {
      var todo := pages.Keys;
      ghost var done: set<string> := {};
      while todo != {}
        invariant todo + done == old(pages).Keys && todo !! done
        invariant pages == map k | k in old(pages) && !(k in done && GlobMatch(pattern, k)) :: old(pages)[k]
        decreases todo
      {
        var k :| k in todo;
        if GlobMatch(pattern, k) { pages := pages - {k}; }
        todo, done := todo - {k}, done + {k};
      }
    }

    method InvalidateFileListCache(user: Id, parent: Option<Id>, ghost stale: set<(Id, Id)>)
      modifies `pages
      ensures pages == Dropped(old(pages), user, CacheParent(parent))
      ensures old(CoherentExcept(rows, nextRow, pages, query, stale)) ==>
        CoherentExcept(rows, nextRow, pages, query, stale - {(user, CacheParent(parent))})
      ensures stale <= {(user, CacheParent(parent))} && old(CoherentExcept(rows, nextRow, pages, query, stale)) ==>
        Coherent(rows, nextRow, pages, query)
    {
      var key := BuildCacheKey(USER_FILE_LIST, [NatText(user)] + [NatText(CacheParent(parent))]);
      if CoherentExcept(rows, nextRow, pages, query, stale) {
        DropCures(rows, nextRow, pages, query, stale, user, CacheParent(parent));
      }
      DeleteByPattern(key + ":*");
      assert stale <= {(user, CacheParent(parent))} ==> stale - {(user, CacheParent(parent))} == {};
    }

    // ---- Creating rows ------------------------------------------------------

    method CreateUserFile(user: Id, parent: Option<Id>, name: string, o: Id, size: int) returns (id: Option<Id>)
      requires Ok()
      modifies `rows, `nextRow, `log, `pages
      ensures Ok()
      ensures id.None? ==> rows == old(rows) && nextRow == old(nextRow) && log == old(log) && pages == old(pages)
      ensures id.Some? ==>
        && id.value == old(nextRow) && id.value !in old(rows) && nextRow == old(nextRow) + 1
        && id.value in rows && rows == old(rows)[id.value := rows[id.value]]
        && rows[id.value] == NewFile(user, parent, name, o, size, rows[id.value].stamp)
        && Insertable(old(rows), objs, NewFile(user, parent, name, o, size, 0))
        && log == old(log) + [(rows, objs)]
      ensures reliable ==> (id.Some? <==> Insertable(old(rows), objs, NewFile(user, parent, name, o, size, 0)))
      ensures old(Coherent(rows, nextRow, pages, query)) ==> Coherent(rows, nextRow, pages, query)
      ensures old(Acyclic(rows)) ==> Acyclic(rows)
      ensures old(Placed(rows, objs, blobs)) && (o in objs ==> objs[o].loc in blobs) ==> Placed(rows, objs, blobs)
    {
      hide UniqueHashes, Shaped, ObjectsExist, Acyclic;
      var stamp := Now();
      var r := NewFile(user, parent, name, o, size, stamp);
      id := InsertRow(r);
      if id.None? { return; }
      if objs[o].loc in blobs { RowStaysPlaced(old(rows), objs, id.value, r, o, blobs); }
      hide Placed;
      if old(Acyclic(rows)) { InsertAcyclic(old(rows), id.value, r); }
      if old(Coherent(rows, nextRow, pages, query)) {
        InsertChangesOne(old(rows), id.value, r, pages, query, {});
      }
      InvalidateFileListCache(user, parent, {(user, CacheParent(parent))});
    }

    // One more reference to an existing object, then the row; undone if the row fails.
    method Attach(user: Id, parent: Option<Id>, name: string, o: Id, size: int) returns (id: Option<Id>)
      requires Ok()
      modifies `rows, `nextRow, `objs, `log, `cache, `pages
      ensures Ok() && old(log) <= log
      ensures old(Safe(rows, objs)) ==> Safe(rows, objs) && SafeFrom(log, |old(log)|)
      ensures reliable && old(Exact(rows, objs)) ==> Exact(rows, objs)
      ensures id.Some? ==>
        && id.value == old(nextRow) && id.value !in old(rows) && nextRow == old(nextRow) + 1
        && id.value in rows && rows == old(rows)[id.value := rows[id.value]]
        && rows[id.value] == NewFile(user, parent, name, o, size, rows[id.value].stamp)
        && o in objs && objs == Recounted(old(objs), o, 1)
      ensures id.None? ==> rows == old(rows) && nextRow == old(nextRow) && pages == old(pages)
      ensures id.None? && reliable && old(Safe(rows, objs)) ==> objs == old(objs)
      ensures reliable ==> (id.Some? <==> Insertable(old(rows), old(objs), NewFile(user, parent, name, o, size, 0)))
      ensures reliable && old(CacheOkBut(objs, nextObj, cache, o)) ==> Cached()
      ensures old(NoGhosts(objs, cache)) ==> NoGhosts(objs, cache)
      ensures old(Coherent(rows, nextRow, pages, query)) ==> Coherent(rows, nextRow, pages, query)
      ensures old(Acyclic(rows)) ==> Acyclic(rows)
      ensures old(Placed(rows, objs, blobs)) && (o in old(objs) ==> old(objs)[o].loc in blobs) ==>
        Placed(rows, objs, blobs)
      ensures reliable ==> o !in cache.ids && cache.hashes == old(cache).hashes
    {
      hide Schema, Exact, Safe, ExactOwing, SafeOwing, Recounted, CacheOk, Coherent, Placed;
      RecountKeepsPlace(objs, o, 1);
      CountFirst(rows, objs, o);
      ghost var counted := Recounted(objs, o, 1);
      var ok := IncreaseRefCount(o);
      if !ok { return None; }
      id := CreateUserFile(user, parent, name, o, size);
      if id.Some? {
        InsertSettles(old(rows), counted, id.value, rows[id.value], o);
      } else {
        var remain;
        ok, remain := DecreaseRefCount(o);
      }
    }

    // A new object and its first row. If the row fails, blob and object are removed
    // again, but the cache entries that CreateFilesObject made stay.
    method StoreNew(x: Obj, parent: Option<Id>, name: string) returns (id: Option<Id>, created: bool)
      requires Ok() && x.refCount == 1
      modifies `rows, `nextRow, `objs, `nextObj, `log, `cache, `pages, `blobs
      ensures Ok() && old(log) <= log
      ensures old(Safe(rows, objs)) ==> Safe(rows, objs) && SafeFrom(log, |old(log)|)
      ensures reliable && old(Exact(rows, objs)) ==> Exact(rows, objs)
      ensures id.Some? ==>
        && created && blobs == old(blobs)
        && id.value == old(nextRow) && id.value !in old(rows) && nextRow == old(nextRow) + 1
        && id.value in rows && rows == old(rows)[id.value := rows[id.value]]
        && rows[id.value] == NewFile(x.owner, parent, name, old(nextObj), x.size, rows[id.value].stamp)
        && old(nextObj) !in old(objs) && objs == old(objs)[old(nextObj) := x]
      ensures id.None? ==> rows == old(rows) && nextRow == old(nextRow) && pages == old(pages)
      ensures !created ==> objs == old(objs) && blobs == old(blobs) && cache == old(cache)
      ensures id.None? && created ==> blobs == old(blobs) || blobs == old(blobs) - {x.loc}
      ensures id.None? && reliable ==> objs == old(objs) && (created ==> blobs == old(blobs) - {x.loc})
      ensures created ==> !HashTaken(old(objs), x.hash)
      ensures created ==> old(nextObj) !in old(objs) && cache == Remember(old(cache), old(nextObj), x)
      ensures reliable ==> (created <==> !HashTaken(old(objs), x.hash))
      ensures reliable ==> (id.Some? <==> created && PlaceFree(old(rows), x.owner, parent, name))
      ensures old(Cached()) ==> Cached()
      ensures reliable && old(Cached() && NoGhosts(objs, cache)) ==>
        (NoGhosts(objs, cache) <==> id.Some? || !created)
      ensures old(Coherent(rows, nextRow, pages, query)) ==> Coherent(rows, nextRow, pages, query)
      ensures old(Acyclic(rows)) ==> Acyclic(rows)
      ensures old(Placed(rows, objs, blobs)) && x.loc in old(blobs) && NoneAt(old(objs), x.loc) ==>
        Placed(rows, objs, blobs)
      ensures !created && old(Placed(rows, objs, blobs)) ==> Placed(rows, objs, blobs)
      ensures created && reliable && old(Exact(rows, objs)) && !NoneAt(old(objs), x.loc) ==> !Placed(rows, objs, blobs)
    {
      hide Exact, Safe, ExactOwing, SafeOwing, UniqueNames, UniqueHashes, Shaped, Coherent, Acyclic, Unused, Placed;
      hide NoneAt, Remember, NoGhosts;
      if nextObj !in objs { LeavesGhost(objs, cache, nextObj, x); }
      var made := CreateFilesObject(x);
      if made.None? { return None, false; }
      created := true;
      var o := made.value;
      CreateFirst(rows, old(objs), o, x);
      id := CreateUserFile(x.owner, parent, name, o, x.size);
      if id.Some? {
        InsertSettles(old(rows), objs, id.value, rows[id.value], o);
        StoredPlaced(old(rows), old(objs), id.value, rows[id.value], o, x, blobs);
        return;
      }
      RolledBackPlaced(rows, old(objs), o, x, blobs);
      var gone := RemoveBlob(x.loc);
      gone := DeleteObject(o);
    }

    // New content at its location, object and first row; undone if one of them fails.
    method StoreAt(x: Obj, parent: Option<Id>, name: string, data: Bytes) returns (id: Option<Id>)
      requires Ok() && x.refCount == 1
      modifies `rows, `nextRow, `objs, `nextObj, `log, `cache, `pages, `blobs
      ensures Ok() && old(log) <= log
      ensures old(Safe(rows, objs)) ==> Safe(rows, objs) && SafeFrom(log, |old(log)|)
      ensures reliable && old(Exact(rows, objs)) ==> Exact(rows, objs)
      ensures old(Coherent(rows, nextRow, pages, query)) ==> Coherent(rows, nextRow, pages, query)
      ensures old(Acyclic(rows)) ==> Acyclic(rows)
      ensures id.None? ==> rows == old(rows) && nextRow == old(nextRow) && pages == old(pages)
      ensures id.Some? ==>
        && id.value !in old(rows) && id.value in rows && rows == old(rows)[id.value := rows[id.value]]
        && rows[id.value] == NewFile(x.owner, parent, name, old(nextObj), x.size, rows[id.value].stamp)
        && objs == old(objs)[old(nextObj) := x] && old(nextObj) !in old(objs) && !HashTaken(old(objs), x.hash)
        && blobs == old(blobs)[x.loc := data]
      ensures id.None? && reliable ==> objs == old(objs) && blobs == old(blobs) - {x.loc}
      ensures reliable ==> (id.Some? <==> !HashTaken(old(objs), x.hash) && PlaceFree(old(rows), x.owner, parent, name))
      ensures old(Cached()) ==> Cached()
      ensures reliable && old(Cached() && NoGhosts(objs, cache)) ==>
        (NoGhosts(objs, cache) <==> id.Some? || HashTaken(old(objs), x.hash))
      ensures reliable && id.None? && !HashTaken(old(objs), x.hash) && x.hash != "" ==> GhostFor(objs, cache, x.hash)
      ensures NoneAt(old(objs), x.loc) ==>
        && (old(Placed(rows, objs, blobs)) ==> Placed(rows, objs, blobs))
        && AllKeep(old(rows), old(objs), old(blobs), blobs)
      ensures reliable && old(Exact(rows, objs) && Placed(rows, objs, blobs)) ==>
        (Placed(rows, objs, blobs) <==> NoneAt(old(objs), x.loc))
    {
      hide Schema, Exact, Safe, Coherent, Acyclic, CacheOk, NoGhosts, Placed, AllKeep, NoneAt, HashTaken;
      FreshWrite(rows, objs, blobs, x.loc, data);
      var ok := PutBlob(x.loc, data);
      if !ok { return None; }
      var created;
      id, created := StoreNew(x, parent, name);
      if !created { var gone := RemoveBlob(x.loc); }
    }

    // ---- Uploads ------------------------------------------------------------

    // Upload by hash: no bytes are sent when a stored object has the same hash.
    method FastUpload(user: Id, parentId: Id, name: string, size: int, hash: string) returns (r: UploadReply)
      requires Ok()
      modifies `rows, `nextRow, `objs, `log, `cache, `pages
      ensures Ok() && old(log) <= log
      ensures old(Safe(rows, objs)) ==> Safe(rows, objs) && SafeFrom(log, |old(log)|)
      ensures reliable && old(Exact(rows, objs)) ==> Exact(rows, objs)
      ensures old(Coherent(rows, nextRow, pages, query)) ==> Coherent(rows, nextRow, pages, query)
      ensures old(Acyclic(rows)) ==> Acyclic(rows)
      ensures !r.Instant? ==> rows == old(rows) && pages == old(pages)
      ensures !r.Instant? && reliable && old(Safe(rows, objs)) ==> objs == old(objs)
      ensures r.Instant? ==>
        && r.fileId !in old(rows) && r.fileId in rows && rows == old(rows)[r.fileId := rows[r.fileId]]
        && rows[r.fileId].obj.Some? && rows[r.fileId].obj.value in old(objs)
        && objs == Recounted(old(objs), rows[r.fileId].obj.value, 1)
      ensures r.Instant? && old(Cached()) ==>
        && objs[rows[r.fileId].obj.value].hash == hash
        && rows[r.fileId] == NewFile(user, ParentField(parentId), name, rows[r.fileId].obj.value,
             objs[rows[r.fileId].obj.value].size, rows[r.fileId].stamp)
      ensures reliable && old(Cached()) ==> Cached()
      ensures reliable && old(Cached() && NoGhosts(objs, cache)) ==>
        && NoGhosts(objs, cache)
        && (r.Instant? <==> PlaceFree(old(rows), user, ParentField(parentId), name) && exists o ::
              o in old(objs) && old(objs)[o].hash == hash && old(objs)[o].loc in blobs
              && (size > 0 && old(objs)[o].size > 0 ==> size == old(objs)[o].size))
      ensures r == NeedUpload("hash_not_found") ==> forall o :: o in old(objs) ==> old(objs)[o].hash != hash
      ensures r.NeedUpload? ==> r.reason in {"hash_not_found", "size_mismatch", "object_missing"}
      ensures reliable && old(Cached() && NoGhosts(objs, cache)) ==>
        Answered(old(objs), blobs, hash, size, PlaceFree(old(rows), user, ParentField(parentId), name), r)
      ensures old(Cached() && Placed(rows, objs, blobs)) ==> Placed(rows, objs, blobs)
    {
      hide Exact, Safe, UniqueNames, Shaped, Coherent, Acyclic, CacheOk, NoGhosts, Placed, Answered;
      ghost var free, sure := PlaceFree(rows, user, ParentField(parentId), name), Cached() && NoGhosts(objs, cache);
      if !HashTaken(objs, hash) { AnswersNone(objs, blobs, hash, size, free); }
      var l := GetFileObjectByHash(hash);
      match l
      case NotFound => r := NeedUpload("hash_not_found");
      case Failed => r := Rejected;
      case Found(o, obj) =>
        if size > 0 && obj.size > 0 && size != obj.size {
          r := NeedUpload("size_mismatch");
        } else {
          r := UseFound(user, parentId, name, o, obj);
        }
        if reliable && sure { AnswersFound(old(objs), blobs, hash, size, free, o, r); }
    }

    // A reference to the object a lookup found, if its content is there.
    method UseFound(user: Id, parentId: Id, name: string, o: Id, obj: Obj) returns (r: UploadReply)
      requires Ok()
      modifies `rows, `nextRow, `objs, `log, `cache, `pages
      ensures Ok() && old(log) <= log
      ensures old(Safe(rows, objs)) ==> Safe(rows, objs) && SafeFrom(log, |old(log)|)
      ensures reliable && old(Exact(rows, objs)) ==> Exact(rows, objs)
      ensures old(Coherent(rows, nextRow, pages, query)) ==> Coherent(rows, nextRow, pages, query)
      ensures old(Acyclic(rows)) ==> Acyclic(rows)
      ensures r in {NeedUpload("object_missing"), Rejected} || r.Instant?
      ensures !r.Instant? ==> rows == old(rows) && pages == old(pages)
      ensures !r.Instant? && reliable && old(Safe(rows, objs)) ==> objs == old(objs)
      ensures r.Instant? ==>
        && r.fileId !in old(rows) && r.fileId in rows && rows == old(rows)[r.fileId := rows[r.fileId]]
        && rows[r.fileId] == NewFile(user, ParentField(parentId), name, o, obj.size, rows[r.fileId].stamp)
        && o in old(objs) && objs == Recounted(old(objs), o, 1) && obj.loc in blobs
      ensures reliable && o in old(objs) ==>
        if obj.loc !in blobs then r == NeedUpload("object_missing")
        else if PlaceFree(old(rows), user, ParentField(parentId), name) then r.Instant?
        else r == Rejected
      ensures reliable && old(Cached()) ==> Cached()
      ensures old(NoGhosts(objs, cache)) ==> NoGhosts(objs, cache)
      ensures old(Placed(rows, objs, blobs)) && (o in old(objs) ==> obj.loc == old(objs)[o].loc) ==>
        Placed(rows, objs, blobs)
    {
      hide Exact, Safe, UniqueNames, Shaped, Coherent, Acyclic, CacheOk, NoGhosts, Placed;
      var there := IsFileObjectAvailable(obj.loc);
      if !there { return NeedUpload("object_missing"); }
      if Cached() { CacheOkImpliesBut(objs, nextObj, cache, o); }
      var id := Attach(user, ParentField(parentId), name, o, obj.size);
      r := if id.Some? then Instant(id.value) else Rejected;
    }

    // The start of a multipart upload answers at once when the object is stored already.
    method MultiPartFileInit(user: Id, parentId: Id, name: string, hash: string) returns (r: UploadReply)
      requires Ok()
      modifies `rows, `nextRow, `objs, `log, `cache, `pages
      ensures Ok() && old(log) <= log
      ensures old(Safe(rows, objs)) ==> Safe(rows, objs) && SafeFrom(log, |old(log)|)
      ensures reliable && old(Exact(rows, objs)) ==> Exact(rows, objs)
      ensures old(Coherent(rows, nextRow, pages, query)) ==> Coherent(rows, nextRow, pages, query)
      ensures old(Acyclic(rows)) ==> Acyclic(rows)
      ensures !r.Instant? ==> rows == old(rows) && pages == old(pages)
      ensures !r.Instant? && reliable && old(Safe(rows, objs)) ==> objs == old(objs)
      ensures r.Instant? ==>
        && r.fileId !in old(rows) && r.fileId in rows && rows == old(rows)[r.fileId := rows[r.fileId]]
        && rows[r.fileId].obj.Some? && rows[r.fileId].obj.value in old(objs)
        && objs == Recounted(old(objs), rows[r.fileId].obj.value, 1)
      ensures reliable && old(Cached()) ==> Cached()
      ensures reliable && old(Cached() && NoGhosts(objs, cache)) ==>
        && NoGhosts(objs, cache)
        && (r.NeedUpload? <==> forall o :: o in old(objs) && old(objs)[o].hash == hash ==> old(objs)[o].loc !in blobs)
        && (r.Rejected? ==> !PlaceFree(old(rows), user, ParentField(parentId), name))
        && (r.Instant? ==> PlaceFree(old(rows), user, ParentField(parentId), name))
      ensures r.NeedUpload? ==> r.reason == "upload"
      ensures old(Cached() && Placed(rows, objs, blobs)) ==> Placed(rows, objs, blobs)
      ensures r.Instant? && old(Cached()) ==>
        && objs[rows[r.fileId].obj.value].hash == hash
        && rows[r.fileId] == NewFile(user, ParentField(parentId), name, rows[r.fileId].obj.value,
             objs[rows[r.fileId].obj.value].size, rows[r.fileId].stamp)
    {
      hide Exact, Safe, UniqueNames, Shaped, Coherent, Acyclic, CacheOk, NoGhosts, Placed;
      var l := GetFileObjectByHash(hash);
      match l
      case NotFound => return NeedUpload("upload");
      case Failed => return Rejected;
      case Found(o, obj) =>
        var there := IsFileObjectAvailable(obj.loc);
        if !there { return NeedUpload("upload"); }
        if Cached() { CacheOkImpliesBut(objs, nextObj, cache, o); }
        var id := Attach(user, ParentField(parentId), name, o, obj.size);
        r := if id.Some? then Instant(id.value) else Rejected;
    }

    // Writes content and then the row of an object, if it is still there.
    method Rewrite(o: Id, x: Obj, data: Bytes) returns (ok: bool)
      requires Ok() && (o in objs ==> x == objs[o].(loc := x.loc, size := x.size))
      modifies `objs, `log, `blobs
      ensures Ok() && old(log) <= log
      ensures old(Safe(rows, objs)) ==> Safe(rows, objs) && SafeFrom(log, |old(log)|)
      ensures old(Exact(rows, objs)) ==> Exact(rows, objs)
      ensures objs == if ok && o in old(objs) then old(objs)[o := x] else old(objs)
      ensures blobs == old(blobs)[x.loc := data] || (!ok && blobs == old(blobs))
      ensures reliable ==> ok
      ensures
        old(Placed(rows, objs, blobs)) &&
        (o in objs ==> x.loc == old(objs)[o].loc || NoOtherAt(old(objs), x.hash, x.loc)) ==>
        Placed(rows, objs, blobs)
    {
      hide Exact, Safe, UniqueNames, Shaped, Placed, NoOtherAt;
      ok := PutBlob(x.loc, data);
      if !ok { return; }
      if o in objs {
        RelocateKeepsCounts(rows, objs, o, x);
        if NoOtherAt(objs, x.hash, x.loc) { RelocateStaysPlaced(rows, objs, o, x, blobs); }
        if x.loc == objs[o].loc { ResizeStaysPlaced(rows, objs, o, x, blobs); }
      }
      ok := RelocateObject(o, x.loc, x.size);
    }

    // Rewrites the content of an object whose blob is missing.
    method Repair(o: Id, obj: Obj, size: int, data: Bytes) returns (ok: bool)
      requires Ok()
      modifies `objs, `log, `cache, `blobs
      ensures Ok() && old(log) <= log
      ensures old(Safe(rows, objs)) ==> Safe(rows, objs) && SafeFrom(log, |old(log)|)
      ensures reliable && old(Exact(rows, objs)) ==> Exact(rows, objs)
      ensures objs.Keys == old(objs).Keys
      ensures ok && o in objs ==>
        && objs == old(objs)[o := old(objs)[o].(loc := Loc(bucket, obj.loc.path), size := size)]
        && objs[o].loc in blobs
      ensures ok ==> blobs == old(blobs)[Loc(bucket, obj.loc.path) := data]
      ensures blobs == old(blobs) || blobs == old(blobs)[Loc(bucket, obj.loc.path) := data]
      ensures !ok || o !in objs ==> objs == old(objs)
      ensures reliable ==> ok
      ensures ok && o < nextObj && old(Cached() && (o in objs ==> obj == objs[o])) ==> Cached()
      ensures ok && old(Cached() && NoGhosts(objs, cache) && o in objs && obj == objs[o]) ==> NoGhosts(objs, cache)
      ensures
        old(Placed(rows, objs, blobs)) &&
        (o in objs ==> NoOtherAt(old(objs), old(objs)[o].hash, Loc(bucket, obj.loc.path))) ==>
        Placed(rows, objs, blobs)
      ensures StillLeads(old(cache), cache, o)
      ensures !ok ==> cache == old(cache)
    {
      assert o in objs ==> o < nextObj;
      hide Schema, Exact, Safe, CacheOk, NoGhosts, Placed, NoOtherAt, Remember, StillLeads;
      RepairLeads(cache, o, obj.(loc := Loc(bucket, obj.loc.path), size := size), obj.loc);
      var x := obj.(loc := Loc(bucket, obj.loc.path), size := size);
      ok := Rewrite(o, if o in objs then objs[o].(loc := x.loc, size := size) else x, data);
      if !ok { return; }
      if old(Cached()) && o < nextObj && (o in objs ==> obj == old(objs)[o]) {
        RepairedCache(old(objs), nextObj, cache, o, obj, x);
      }
      if obj.loc != x.loc { cache := ObjectCache(cache.ids, cache.hashes, cache.paths - {obj.loc}); }
      cache := Remember(cache, o, x);
    }

    // A reference to the object a lookup found, whose content is written again if it is missing.
    method Reuse(user: Id, parent: Option<Id>, name: string, o: Id, obj: Obj, size: int, data: Bytes)
      returns (id: Option<Id>)
      requires Ok()
      modifies `rows, `nextRow, `objs, `log, `cache, `pages, `blobs
      ensures Ok() && old(log) <= log
      ensures old(Safe(rows, objs)) ==> Safe(rows, objs) && SafeFrom(log, |old(log)|)
      ensures reliable && old(Exact(rows, objs)) ==> Exact(rows, objs)
      ensures old(Coherent(rows, nextRow, pages, query)) ==> Coherent(rows, nextRow, pages, query)
      ensures old(Acyclic(rows)) ==> Acyclic(rows)
      ensures id.None? ==> rows == old(rows) && pages == old(pages)
      ensures id.Some? ==>
        && id.value !in old(rows) && id.value in rows && rows == old(rows)[id.value := rows[id.value]]
        && rows[id.value] == NewFile(user, parent, name, o, size, rows[id.value].stamp) && o in old(objs)
      ensures id.Some? && obj == old(objs)[o] ==> var x := old(objs)[o];
        var moved := old(objs)[o := x.(loc := Loc(bucket, x.loc.path), size := size, refCount := x.refCount + 1)];
        && (objs == Recounted(old(objs), o, 1) || objs == moved)
        && (x.loc !in old(blobs) ==> objs == moved)
        && (x.loc in old(blobs) && reliable ==> objs == Recounted(old(objs), o, 1))
        && (reliable ==> objs[o].loc in blobs)
      ensures blobs == old(blobs) || blobs == old(blobs)[Loc(bucket, obj.loc.path) := data]
      ensures reliable && obj.loc in old(blobs) ==> blobs == old(blobs)
      ensures reliable ==> (id.Some? <==> o in old(objs) && PlaceFree(old(rows), user, parent, name))
      ensures reliable && o < nextObj && old(Cached()) && (o in old(objs) ==> obj == old(objs)[o]) ==> Cached()
      ensures reliable && old(Cached() && NoGhosts(objs, cache)) && o in old(objs) && obj == old(objs)[o] ==>
        NoGhosts(objs, cache)
      ensures (o in old(objs) ==> obj == old(objs)[o] && NoOtherAt(old(objs), obj.hash, Loc(bucket, obj.loc.path))) ==>
        (old(Placed(rows, objs, blobs)) ==> Placed(rows, objs, blobs))
      ensures (o in old(objs) ==> obj == old(objs)[o] && obj.loc in old(blobs)) && reliable ==>
        (old(Placed(rows, objs, blobs)) ==> Placed(rows, objs, blobs))
      ensures reliable ==> o !in cache.ids && StillLeads(old(cache), cache, o)
      ensures id.None? && reliable && o !in old(objs) && old(Safe(rows, objs)) ==> objs == old(objs)
    {
      hide Schema, Exact, Safe, Coherent, Acyclic, CacheOk, NoGhosts, Placed, NoOtherAt;
      var there := IsFileObjectAvailable(obj.loc);
      if !there {
        var ok := Repair(o, obj, size, data);
        if !ok { return None; }
      }
      if Cached() { CacheOkImpliesBut(objs, nextObj, cache, o); }
      id := Attach(user, parent, name, o, size);
    }

    // Completing a multipart upload; `data` is what the chunks compose to. `metGhost` tells
    // that the cache answered with an object that is gone.
    method CompleteFile(user: Id, userName: string, parentId: Id, name: string, hash: string, size: int, data: Bytes)
      returns (id: Option<Id>, ghost metGhost: bool)
      requires Ok()
      modifies `rows, `nextRow, `objs, `nextObj, `log, `cache, `pages, `blobs
      ensures Ok() && old(log) <= log
      ensures old(Safe(rows, objs)) ==> Safe(rows, objs) && SafeFrom(log, |old(log)|)
      ensures reliable && old(Exact(rows, objs)) ==> Exact(rows, objs)
      ensures old(Coherent(rows, nextRow, pages, query)) ==> Coherent(rows, nextRow, pages, query)
      ensures old(Acyclic(rows)) ==> Acyclic(rows)
      ensures id.None? ==> rows == old(rows) && pages == old(pages)
      ensures id.Some? ==>
        && id.value !in old(rows) && id.value in rows && rows == old(rows)[id.value := rows[id.value]]
        && rows[id.value].obj.Some?
        && rows[id.value] ==
             NewFile(user, ParentField(parentId), name, rows[id.value].obj.value, size, rows[id.value].stamp)
      ensures id.Some? && old(Cached()) ==>
        StoredByHash(old(objs), objs, rows[id.value].obj.value, old(nextObj), old(blobs), bucket,
          Obj(user, hash, Loc(bucket, BuildObjectName(userName, hash)), size, 1), reliable)
      ensures id.Some? && reliable && old(Cached()) ==> objs[rows[id.value].obj.value].loc in blobs
      ensures reliable && old(Cached()) ==> Cached()
      ensures metGhost ==> GhostFor(old(objs), old(cache), hash)
      ensures lasting ==> (metGhost <==> GhostFor(old(objs), old(cache), hash))
      ensures reliable && old(Cached()) ==>
        (id.Some? <==> PlaceFree(old(rows), user, ParentField(parentId), name) && !metGhost)
      ensures reliable && old(Cached()) && !GhostFor(old(objs), old(cache), hash) ==>
        (id.Some? <==> PlaceFree(old(rows), user, ParentField(parentId), name))
      ensures reliable && old(Cached()) && id.None? && !HashTaken(old(objs), hash) && hash != "" ==>
        (GhostFor(objs, cache, hash) <==> !metGhost)
      ensures reliable && id.None? && !HashTaken(old(objs), hash) && old(Cached() && Safe(rows, objs)) ==>
        objs == old(objs)
      ensures reliable && old(Cached() && NoGhosts(objs, cache)) ==>
        (NoGhosts(objs, cache) <==> id.Some? || HashTaken(old(objs), hash))
      ensures old(Cached() && Placed(rows, objs, blobs)) && PathOpen(old(objs), bucket, userName, hash) ==>
        Placed(rows, objs, blobs)
      ensures old(Cached()) && PathOpen(old(objs), bucket, userName, hash) && !metGhost ==>
        OthersKeep(old(rows), old(objs), old(blobs), blobs, hash)
      ensures old(Cached()) && PathOpen(old(objs), bucket, userName, hash) && !GhostFor(old(objs), old(cache), hash) ==>
        OthersKeep(old(rows), old(objs), old(blobs), blobs, hash)
      ensures reliable && old(Cached() && Exact(rows, objs) && Placed(rows, objs, blobs)) ==>
        (Placed(rows, objs, blobs) <==>
          metGhost || HashTaken(old(objs), hash) || NoneAt(old(objs), Loc(bucket, BuildObjectName(userName, hash))))
    {
      hide Schema, Exact, Safe, Coherent, Acyclic, CacheOk, NoGhosts, Placed, PathOpen, OthersKeep, AllKeep, NoneAt;
      hide NoOtherAt;
      metGhost := false;
      OthersKeepAll(rows, objs, blobs, hash);
      var l := GetFileObjectByHash(hash);
      match l
      case Failed => return None, false;
      case Found(o, obj) =>
        metGhost := o !in objs;
        ExistingOpen(rows, objs, blobs, bucket, userName, hash, o, obj, data);
        id := Reuse(user, ParentField(parentId), name, o, obj, size, data);
      case NotFound =>
        var dst := Loc(bucket, BuildObjectName(userName, hash));
        NewOpen(rows, objs, blobs, bucket, userName, hash);
        id := StoreAt(Obj(user, hash, dst, size, 1), ParentField(parentId), name, data);
        AllIsOthers(old(rows), old(objs), old(blobs), blobs, hash);
    }

    // Direct upload to a known path, into the user's root folder.
    method MinioUploadFile(user: Id, l: Loc, size: int, name: string, hash: string, data: Bytes)
      returns (id: Option<Id>)
      requires Ok()
      modifies `rows, `nextRow, `objs, `nextObj, `log, `cache, `pages, `blobs
      ensures Ok() && old(log) <= log
      ensures old(Safe(rows, objs)) ==> Safe(rows, objs) && SafeFrom(log, |old(log)|)
      ensures reliable && old(Exact(rows, objs)) ==> Exact(rows, objs)
      ensures old(Coherent(rows, nextRow, pages, query)) ==> Coherent(rows, nextRow, pages, query)
      ensures old(Acyclic(rows)) ==> Acyclic(rows)
      ensures id.None? ==> rows == old(rows) && pages == old(pages)
      ensures id.Some? ==>
        && id.value !in old(rows) && id.value in rows && rows == old(rows)[id.value := rows[id.value]]
        && rows[id.value].obj.Some?
        && rows[id.value] == NewFile(user, None, name, rows[id.value].obj.value, size, rows[id.value].stamp)
        && StoredByPath(old(objs), objs, rows[id.value].obj.value, old(nextObj), old(blobs),
             Obj(user, hash, l, size, 1), reliable)
      ensures reliable ==> (id.None? <==>
        HashTaken(old(objs), hash) && forall o :: o in old(objs) ==> old(objs)[o].loc != l)
      ensures id.Some? && reliable ==> l in blobs
      ensures reliable && old(Cached()) ==> Cached()
      ensures reliable && old(Cached() && NoGhosts(objs, cache)) ==> NoGhosts(objs, cache)
      ensures old(Placed(rows, objs, blobs)) ==> Placed(rows, objs, blobs)
      ensures reliable && old(Placed(rows, objs, blobs)) ==> AllKeep(old(rows), old(objs), old(blobs), blobs)
    {
      hide Schema, Exact, Safe, Coherent, Acyclic, CacheOk, NoGhosts, Placed, AllKeep, HashTaken;
      PathWrites(rows, objs, blobs, l, data);
      var f := Fault(reliable);
      if f { return None; }
      if o :| o in objs && objs[o].loc == l {
        id := ReuseAt(user, name, o, size, data);
      } else {
        var ok := PutBlob(l, data);
        if !ok { return None; }
        var created;
        id, created := StoreNew(Obj(user, hash, l, size, 1), None, name);
      }
    }

    // A reference to the object at a path, whose content is written again if it is missing;
    // the cache is not told.
    method ReuseAt(user: Id, name: string, o: Id, size: int, data: Bytes) returns (id: Option<Id>)
      requires Ok() && o in objs
      modifies `rows, `nextRow, `objs, `log, `cache, `pages, `blobs
      ensures Ok() && old(log) <= log
      ensures old(Safe(rows, objs)) ==> Safe(rows, objs) && SafeFrom(log, |old(log)|)
      ensures reliable && old(Exact(rows, objs)) ==> Exact(rows, objs)
      ensures old(Coherent(rows, nextRow, pages, query)) ==> Coherent(rows, nextRow, pages, query)
      ensures old(Acyclic(rows)) ==> Acyclic(rows)
      ensures id.None? ==> rows == old(rows) && pages == old(pages)
      ensures reliable ==> id.Some?
      ensures id.Some? ==>
        && id.value !in old(rows) && id.value in rows && rows == old(rows)[id.value := rows[id.value]]
        && rows[id.value] == NewFile(user, None, name, o, size, rows[id.value].stamp)
      ensures id.Some? ==> var x := old(objs)[o];
        var resized := old(objs)[o := x.(size := size, refCount := x.refCount + 1)];
        && (objs == Recounted(old(objs), o, 1) || objs == resized)
        && (x.loc !in old(blobs) ==> objs == resized)
        && (x.loc in old(blobs) && reliable ==> objs == Recounted(old(objs), o, 1))
      ensures var l := old(objs)[o].loc;
        blobs == old(blobs) || (blobs == old(blobs)[l := data] && (reliable ==> l !in old(blobs)))
      ensures id.Some? && reliable ==> old(objs)[o].loc in blobs
      ensures reliable && old(Cached()) ==> Cached()
      ensures reliable && old(Cached() && NoGhosts(objs, cache)) ==> NoGhosts(objs, cache)
      ensures old(Placed(rows, objs, blobs)) ==> Placed(rows, objs, blobs)
    {
      hide Schema, Exact, Safe, Coherent, Acyclic, CacheOk, NoGhosts, Placed, CacheOkBut, Insertable, Recounted;
      RootRow(rows, objs, user, name, o, size);
      RootRow(rows, objs[o := objs[o].(size := size)], user, name, o, size);
      RecountAfter(objs, o, objs[o].(size := size));
      var l := objs[o].loc;
      var there := IsFileObjectAvailable(l);
      if old(Cached()) { CacheOkImpliesBut(objs, nextObj, cache, o); }
      if !there {
        var x := objs[o].(size := size);
        if old(Cached()) { RelocatedInTable(objs, nextObj, cache, o, x); }
        var ok := Rewrite(o, x, data);
        if !ok { return None; }
      }
      id := Attach(user, None, name, o, size);
    }

    // Upload from a URL: a fresh token serves as hash. `size` is what the download returned.
    method UploadFromURL(user: Id, userName: string, token: string, size: int, parent: Option<Id>,
      name: string, data: Bytes)
      returns (id: Option<Id>)
      requires Ok()
      modifies `rows, `nextRow, `objs, `nextObj, `log, `cache, `pages, `blobs
      ensures Ok() && old(log) <= log
      ensures old(Safe(rows, objs)) ==> Safe(rows, objs) && SafeFrom(log, |old(log)|)
      ensures reliable && old(Exact(rows, objs)) ==> Exact(rows, objs)
      ensures old(Coherent(rows, nextRow, pages, query)) ==> Coherent(rows, nextRow, pages, query)
      ensures old(Acyclic(rows)) ==> Acyclic(rows)
      ensures id.None? ==> rows == old(rows) && pages == old(pages)
      ensures id.Some? ==>
        && id.value !in old(rows) && id.value in rows && rows == old(rows)[id.value := rows[id.value]]
        && rows[id.value] == NewFile(user, parent, name, old(nextObj), size, rows[id.value].stamp)
        && objs == old(objs)[old(nextObj) := Obj(user, token, Loc(bucket, BuildObjectName(userName, token)), size, 1)]
        && old(nextObj) !in old(objs)
        && blobs == old(blobs)[Loc(bucket, BuildObjectName(userName, token)) := data]
      ensures id.None? && reliable ==>
        objs == old(objs) && blobs == old(blobs) - {Loc(bucket, BuildObjectName(userName, token))}
      ensures reliable ==> (id.Some? <==> !HashTaken(old(objs), token) && PlaceFree(old(rows), user, parent, name))
      ensures reliable && old(Cached()) ==> Cached()
      ensures reliable && old(Cached() && NoGhosts(objs, cache)) ==>
        (NoGhosts(objs, cache) <==> id.Some? || HashTaken(old(objs), token))
      ensures NoneAt(old(objs), Loc(bucket, BuildObjectName(userName, token))) ==>
        && (old(Placed(rows, objs, blobs)) ==> Placed(rows, objs, blobs))
        && AllKeep(old(rows), old(objs), old(blobs), blobs)
      ensures reliable && old(Exact(rows, objs) && Placed(rows, objs, blobs)) ==>
        (Placed(rows, objs, blobs) <==> NoneAt(old(objs), Loc(bucket, BuildObjectName(userName, token))))
    {
      hide Exact, Safe, UniqueNames, Shaped, Coherent, Acyclic, CacheOk, NoGhosts, Placed, AllKeep, NoneAt;
      var l := Loc(bucket, BuildObjectName(userName, token));
      id := StoreAt(Obj(user, token, l, size, 1), parent, name, data);
    }

    // What a finished offline download stores. When the token's object is there already
    // (an earlier attempt stored it), the row is added without counting it.
    method FinishDownload(user: Id, userName: string, token: string, size: int, name: string, data: Bytes,
      f: StoreFaults)
      returns (id: Option<Id>)
      requires Ok()
      modifies `rows, `nextRow, `objs, `nextObj, `log, `cache, `pages, `blobs
      ensures Ok()
      ensures old(Coherent(rows, nextRow, pages, query)) ==> Coherent(rows, nextRow, pages, query)
      ensures old(Acyclic(rows)) ==> Acyclic(rows)
      ensures id.None? ==> rows == old(rows) && pages == old(pages)
      ensures id.Some? ==>
        && id.value !in old(rows) && id.value in rows && rows == old(rows)[id.value := rows[id.value]]
        && rows[id.value].obj.Some?
        && rows[id.value] == NewFile(user, None, name, rows[id.value].obj.value, size, rows[id.value].stamp)
      ensures reliable && old(Exact(rows, objs) && Cached() && NoGhosts(objs, cache)) ==>
        && id.Some?
        && (Exact(rows, objs) <==> !HashTaken(old(objs), token))
        && (Safe(rows, objs) <==> !HashTaken(old(objs), token))
      ensures reliable && !HashTaken(old(objs), token) ==>
        && id.Some? && rows[id.value].obj == Some(old(nextObj))
        && objs == old(objs)[old(nextObj) := Obj(user, token, Loc(bucket, BuildObjectName(userName, token)), size, 1)]
        && blobs == old(blobs)[Loc(bucket, BuildObjectName(userName, token)) := data]
        && (old(Exact(rows, objs)) ==> Exact(rows, objs))
        && (old(Cached() && NoGhosts(objs, cache)) ==> NoGhosts(objs, cache))
        && (old(Exact(rows, objs) && Placed(rows, objs, blobs)) ==>
             (Placed(rows, objs, blobs) <==> NoneAt(old(objs), Loc(bucket, BuildObjectName(userName, token)))))
      ensures reliable && old(Cached()) ==> Cached()
      ensures old(Exact(rows, objs) && Cached() && Placed(rows, objs, blobs)) ==>
        var l := Loc(bucket, BuildObjectName(userName, token));
        NoneAt(old(objs), l) || (HashTaken(old(objs), token) && id.Some?) ==> Placed(rows, objs, blobs)
      ensures
        old(Cached()) && NoneAt(old(objs), Loc(bucket, BuildObjectName(userName, token))) &&
        !HashTaken(old(objs), token) ==>
        && (old(Placed(rows, objs, blobs)) ==> Placed(rows, objs, blobs))
        && AllKeep(old(rows), old(objs), old(blobs), blobs)
      ensures reliable && old(Exact(rows, objs) && Cached() && NoGhosts(objs, cache) && Placed(rows, objs, blobs)) ==>
        (Placed(rows, objs, blobs) <==>
          HashTaken(old(objs), token) || NoneAt(old(objs), Loc(bucket, BuildObjectName(userName, token))))
      ensures old(Exact(rows, objs) && Cached() && Placed(rows, objs, blobs)) && HashTaken(old(objs), token) ==>
        var l := Loc(bucket, BuildObjectName(userName, token));
        && (Placed(rows, objs, blobs) <==> NoneAt(old(objs), l) || l in blobs)
        && (reliable || f.put || !f.lookup || f.remove || NoneAt(old(objs), l) ==> Placed(rows, objs, blobs))
        && (lasting ==> (Placed(rows, objs, blobs) <==>
             reliable || f.put || !f.lookup || f.remove || NoneAt(old(objs), l) || Answers(old(cache), token)))
    {
      hide UniqueNames, Shaped, Coherent, Acyclic, CacheOk, NoGhosts, Exact, Safe, Placed, AllKeep, NoneAt, Remember;
      hide ParentsExist;
      InUseIsThere(rows, objs, blobs, Loc(bucket, BuildObjectName(userName, token)));
      FreshWrite(rows, objs, blobs, Loc(bucket, BuildObjectName(userName, token)), data);
      var l := Loc(bucket, BuildObjectName(userName, token));
      var ok := PutBlobUnless(l, data, f.put);
      if !ok { return None; }
      var created;
      id, created := StoreNew(Obj(user, token, l, size, 1), None, name);
      if id.Some? {
        if old(Exact(rows, objs)) && reliable { ExactIsSafe(rows, objs); }
        return;
      }
      if created { return; }
      id := AddToExisting(user, l, token, size, name, f);
    }

    // A row for the object with the hash, which is not counted; where it cannot be looked up,
    // what was just written is removed again.
    method AddToExisting(user: Id, l: Loc, hash: string, size: int, name: string, f: StoreFaults)
      returns (id: Option<Id>)
      requires Ok()
      modifies `rows, `nextRow, `log, `cache, `pages, `blobs
      ensures Ok()
      ensures old(Coherent(rows, nextRow, pages, query)) ==> Coherent(rows, nextRow, pages, query)
      ensures old(Acyclic(rows)) ==> Acyclic(rows)
      ensures id.None? ==> rows == old(rows) && pages == old(pages)
      ensures id.Some? ==> blobs == old(blobs)
      ensures id.Some? ==>
        && id.value !in old(rows) && id.value in rows && rows == old(rows)[id.value := rows[id.value]]
        && rows[id.value].obj.Some?
        && rows[id.value] == NewFile(user, None, name, rows[id.value].obj.value, size, rows[id.value].stamp)
      ensures id.Some? && old(Exact(rows, objs)) ==> !Exact(rows, objs) && !Safe(rows, objs)
      ensures old(Cached()) ==> Cached() && (id.Some? ==> HashTaken(objs, hash))
      ensures reliable && old(Cached() && NoGhosts(objs, cache)) && HashTaken(objs, hash) ==> id.Some?
      ensures blobs == old(blobs) || blobs == old(blobs) - {l}
      ensures HashTaken(objs, hash) && (reliable || !f.lookup || f.remove) ==> blobs == old(blobs)
      ensures lasting && HashTaken(objs, hash) && l in old(blobs) ==>
        (l in blobs <==> reliable || !f.lookup || f.remove || Answers(old(cache), hash))
      ensures old(Exact(rows, objs) && Placed(rows, objs, blobs)) && blobs == old(blobs) ==> Placed(rows, objs, blobs)
    {
      hide UniqueNames, Shaped, Coherent, Acyclic, CacheOk, NoGhosts, Exact, Safe, Placed, Remember, ParentsExist;
      if Exact(rows, objs) && Placed(rows, objs, blobs) { AllContentThere(rows, objs, blobs); }
      var existing := FindByHash(hash, f.lookup);
      if !existing.Found? {
        var gone := RemoveBlobUnless(l, f.remove);
        return None;
      }
      id := CreateUserFile(user, None, name, existing.id, size);
      if id.Some? && old(Exact(rows, objs)) {
        InsertFirstBreaks(old(rows), objs, id.value, rows[id.value], existing.id);
      }
    }

    // ---- Rows that stay where they are --------------------------------------

    method UpdateOne(i: Id, r: Row) returns (ok: bool)
      requires Ok() && i in rows && r.user == rows[i].user && r.parent == rows[i].parent
      requires r.isDir == rows[i].isDir && r.obj == rows[i].obj
      modifies `rows, `log
      ensures Ok() && old(log) <= log
      ensures old(Safe(rows, objs)) ==> Safe(rows, objs) && SafeFrom(log, |old(log)|)
      ensures old(Exact(rows, objs)) ==> Exact(rows, objs)
      ensures rows == if ok then old(rows)[i := r] else old(rows)
      ensures reliable ==> (ok <==> Replaceable(old(rows), i, r))
      ensures old(Acyclic(rows)) ==> Acyclic(rows)
      ensures !ok && old(Coherent(rows, nextRow, pages, query)) ==> Coherent(rows, nextRow, pages, query)
      ensures ok && old(Coherent(rows, nextRow, pages, query)) ==>
        CoherentExcept(rows, nextRow, pages, query, {(r.user, CacheParent(r.parent))})
      ensures old(Placed(rows, objs, blobs)) ==> Placed(rows, objs, blobs)
    {
      hide Exact, Safe, Acyclic, CoherentExcept, UniqueNames, UniqueHashes, Replaceable, Placed;
      var t := rows[i := r];
      ReplaceableIff(rows, i, r);
      UpdateKeepsCounts(rows, t, objs);
      if Acyclic(rows) { SameParentsAcyclic(rows, t); }
      if Coherent(rows, nextRow, pages, query) { UpdateChangesOne(rows, nextRow, i, r, pages, query); }
      ok := UpdateRows(t);
    }

    method MoveToRecycle(user: Id, file: Id) returns (ok: bool)
      requires Ok()
      modifies `rows, `log, `pages
      ensures Ok() && old(log) <= log
      ensures old(Safe(rows, objs)) ==> Safe(rows, objs) && SafeFrom(log, |old(log)|)
      ensures old(Exact(rows, objs)) ==> Exact(rows, objs)
      ensures old(Acyclic(rows)) ==> Acyclic(rows)
      ensures old(Coherent(rows, nextRow, pages, query)) ==> Coherent(rows, nextRow, pages, query)
      ensures !ok ==> rows == old(rows)
      ensures ok ==>
        && file in old(rows) && file in rows && rows[file].user == user && rows[file].deleted
        && rows == old(rows)[file := old(rows)[file].(deleted := true, stamp := rows[file].stamp)]
      ensures reliable ==> (ok <==>
        && file in old(rows) && old(rows)[file].user == user
        && (old(rows)[file].deleted || Replaceable(old(rows), file, old(rows)[file].(deleted := true))))
      ensures old(Placed(rows, objs, blobs)) ==> Placed(rows, objs, blobs)
    {
      hide Schema, Exact, Safe, Acyclic, CoherentExcept, Placed;
      var f := Fault(reliable);
      if f || file !in rows || rows[file].user != user { return false; }
      var parent := rows[file].parent;
      var stamp := Now();
      if rows[file].deleted {
        var g := Fault(reliable);
        if g { return false; }
        InvalidateFileListCache(user, parent, {});
        return true;
      }
      ok := UpdateOne(file, rows[file].(deleted := true, stamp := stamp));
      if ok { InvalidateFileListCache(user, parent, {(user, CacheParent(parent))}); }
    }

    method RestoreFile(user: Id, file: Id) returns (ok: bool)
      requires Ok()
      modifies `rows, `log, `pages
      ensures Ok() && old(log) <= log
      ensures old(Safe(rows, objs)) ==> Safe(rows, objs) && SafeFrom(log, |old(log)|)
      ensures old(Exact(rows, objs)) ==> Exact(rows, objs)
      ensures old(Acyclic(rows)) ==> Acyclic(rows)
      ensures old(Coherent(rows, nextRow, pages, query)) ==> Coherent(rows, nextRow, pages, query)
      ensures !ok ==> rows == old(rows)
      ensures ok ==>
        && file in old(rows) && file in rows && rows[file].user == user && !rows[file].deleted
        && rows == old(rows)[file := old(rows)[file].(deleted := false, stamp := rows[file].stamp)]
      ensures reliable ==> (ok <==>
        && file in old(rows) && old(rows)[file].user == user
        && (!old(rows)[file].deleted || Replaceable(old(rows), file, old(rows)[file].(deleted := false))))
      ensures old(Placed(rows, objs, blobs)) ==> Placed(rows, objs, blobs)
    {
      hide Schema, Exact, Safe, Acyclic, CoherentExcept, Placed;
      var f := Fault(reliable);
      if f || file !in rows || rows[file].user != user { return false; }
      var parent := rows[file].parent;
      var stamp := Now();
      if !rows[file].deleted {
        var g := Fault(reliable);
        if g { return false; }
        InvalidateFileListCache(user, parent, {});
        return true;
      }
      ok := UpdateOne(file, rows[file].(deleted := false, stamp := stamp));
      if ok { InvalidateFileListCache(user, parent, {(user, CacheParent(parent))}); }
    }

    // The name check compares parent_id with `=`, so at the root it finds nothing.
    method RenameFile(user: Id, file: Id, name: string) returns (ok: bool)
      requires Ok()
      modifies `rows, `log, `pages
      ensures Ok() && old(log) <= log
      ensures old(Safe(rows, objs)) ==> Safe(rows, objs) && SafeFrom(log, |old(log)|)
      ensures old(Exact(rows, objs)) ==> Exact(rows, objs)
      ensures old(Acyclic(rows)) ==> Acyclic(rows)
      ensures old(Coherent(rows, nextRow, pages, query)) ==> Coherent(rows, nextRow, pages, query)
      ensures !ok ==> rows == old(rows)
      ensures ok ==>
        && file in old(rows) && file in rows
        && rows == old(rows)[file := old(rows)[file].(name := name, stamp := rows[file].stamp)]
      ensures reliable ==> (ok <==>
        && file in old(rows) && Sees(LiveOf(user), old(rows)[file])
        && Replaceable(old(rows), file, old(rows)[file].(name := name)))
      ensures old(Placed(rows, objs, blobs)) ==> Placed(rows, objs, blobs)
    {
      hide Schema, Exact, Safe, Acyclic, CoherentExcept, Placed;
      var f := Fault(reliable);
      if f || file !in rows || !Sees(LiveOf(user), rows[file]) { return false; }
      var parent := rows[file].parent;
      var stamp := Now();
      if parent.Some? && exists i ::
          && i in rows && i != file && Sees(LiveOf(user), rows[i]) && rows[i].parent == parent && rows[i].name == name {
        return false;
      }
      ok := UpdateOne(file, rows[file].(name := name, stamp := stamp));
      if ok { InvalidateFileListCache(user, parent, {(user, CacheParent(parent))}); }
    }

    method CreateFolder(user: Id, parent: Option<Id>, name: string) returns (id: Option<Id>)
      requires Ok()
      modifies `rows, `nextRow, `log, `pages
      ensures Ok() && old(log) <= log
      ensures old(Safe(rows, objs)) ==> Safe(rows, objs) && SafeFrom(log, |old(log)|)
      ensures old(Exact(rows, objs)) ==> Exact(rows, objs)
      ensures old(Acyclic(rows)) ==> Acyclic(rows)
      ensures old(Coherent(rows, nextRow, pages, query)) ==> Coherent(rows, nextRow, pages, query)
      ensures id.None? ==> rows == old(rows) && nextRow == old(nextRow)
      ensures id.Some? ==>
        && id.value !in old(rows) && id.value in rows && rows == old(rows)[id.value := rows[id.value]]
        && rows[id.value] == NewFolder(user, parent, name, rows[id.value].stamp)
      ensures id.Some? && parent.Some? && parent.value != 0 ==>
        && parent.value in old(rows)
        && var folder := old(rows)[parent.value]; folder.isDir && folder.user == user && !folder.deleted
      ensures reliable ==> (id.Some? <==>
        && TargetOk(old(rows), user, parent)
        && !FolderNameInUse(old(rows), user, parent, name) && PlaceFree(old(rows), user, parent, name))
      ensures old(Placed(rows, objs, blobs)) ==> Placed(rows, objs, blobs)
    {
      hide Exact, Safe, Acyclic, CoherentExcept, UniqueNames, Placed;
      var f := Fault(reliable);
      if f || !TargetOk(rows, user, parent) || FolderNameInUse(rows, user, parent, name) { return None; }
      var stamp := Now();
      var r := NewFolder(user, parent, name, stamp);
      id := InsertRow(r);
      if id.None? { return; }
      InsertFolder(old(rows), objs, id.value, r);
      FolderStaysPlaced(old(rows), objs, id.value, r, blobs);
      if old(Acyclic(rows)) { InsertAcyclic(old(rows), id.value, r); }
      if old(Coherent(rows, nextRow, pages, query)) {
        InsertChangesOne(old(rows), id.value, r, pages, query, {});
        assert {} + {(user, CacheParent(parent))} == {(user, CacheParent(parent))};
      }
      InvalidateFileListCache(user, parent, {(user, CacheParent(parent))});
    }

    // One UPDATE over the user's rows in s, and the invalidation of every folder they touch.
    method UpdateMany(user: Id, s: set<Id>, t: Table, folders: set<Id>) returns (ok: bool)
      requires Ok() && t.Keys == rows.Keys && s <= rows.Keys
      requires forall i :: i in t ==>
        t[i].isDir == rows[i].isDir && t[i].obj == rows[i].obj && t[i].user == rows[i].user
      requires forall i :: i in t && i !in s ==> t[i] == rows[i]
      requires forall i :: i in s ==>
        rows[i].user == user && CacheParent(rows[i].parent) in folders && CacheParent(t[i].parent) in folders
      modifies `rows, `log, `pages
      ensures Ok() && old(log) <= log
      ensures old(Safe(rows, objs)) ==> Safe(rows, objs) && SafeFrom(log, |old(log)|)
      ensures old(Exact(rows, objs)) ==> Exact(rows, objs)
      ensures old(Coherent(rows, nextRow, pages, query)) ==> Coherent(rows, nextRow, pages, query)
      ensures rows == if ok then t else old(rows)
      ensures reliable ==> (ok <==> UniqueNames(t) && ParentsExist(t))
      ensures old(Placed(rows, objs, blobs)) ==> Placed(rows, objs, blobs)
    {
      hide Exact, Safe, Coherent, CoherentExcept, UniqueNames, UniqueHashes, ObjectsExist, Shaped, Placed;
      UpdateKeepsCounts(rows, t, objs);
      ghost var stale := FoldersOf(rows, s) + FoldersOf(t, s);
      ok := UpdateRows(t);
      if !ok { return; }
      if old(Coherent(rows, nextRow, pages, query)) { UpdateChangesMany(old(rows), nextRow, t, s, pages, query); }
      InvalidateAll(user, folders, stale);
    }

    method BatchMoveToRecycle(user: Id, ids: seq<Id>) returns (ok: bool, ghost stamp: nat)
      requires Ok()
      modifies `rows, `log, `pages
      ensures Ok() && old(log) <= log
      ensures old(Safe(rows, objs)) ==> Safe(rows, objs) && SafeFrom(log, |old(log)|)
      ensures old(Exact(rows, objs)) ==> Exact(rows, objs)
      ensures old(Acyclic(rows)) ==> Acyclic(rows)
      ensures old(Coherent(rows, nextRow, pages, query)) ==> Coherent(rows, nextRow, pages, query)
      ensures rows == if ok then Recycled(old(rows), Selected(old(rows), user, ids), stamp) else old(rows)
      ensures reliable ==> (ok <==> UniqueNames(Recycled(old(rows), Selected(old(rows), user, ids), stamp)))
      ensures old(Placed(rows, objs, blobs)) ==> Placed(rows, objs, blobs)
    {
      hide Exact, Safe, Acyclic, Coherent, UniqueNames, UniqueHashes, ObjectsExist, Shaped, Placed;
      var now := Now();
      stamp := now;
      var f := Fault(reliable);
      if f { return false, now; }
      var s := Selected(rows, user, ids);
      var t := Recycled(rows, s, now);
      if Acyclic(rows) { SameParentsAcyclic(rows, t); }
      ok := UpdateMany(user, s, t, set i | i in s :: CacheParent(rows[i].parent));
    }

    method InvalidateAll(user: Id, parents: set<Id>, ghost stale: set<(Id, Id)>)
      modifies `pages
      ensures
        old(CoherentExcept(rows, nextRow, pages, query, stale)) &&
        (forall e :: e in stale ==> e.0 == user && e.1 in parents) ==>
        Coherent(rows, nextRow, pages, query)
      ensures old(CoherentExcept(rows, nextRow, pages, query, stale)) ==>
        CoherentExcept(rows, nextRow, pages, query, stale - (set p | p in parents :: (user, p)))
    {
      hide CoherentExcept;
      var todo := parents;
      ghost var left := stale;
      while todo != {}
        invariant todo <= parents
        invariant left == stale - (set p | p in parents - todo :: (user, p))
        invariant old(CoherentExcept(rows, nextRow, pages, query, stale)) ==>
          CoherentExcept(rows, nextRow, pages, query, left)
        decreases todo
      {
        var p :| p in todo;
        InvalidateFileListCache(user, Some(p), left);
        left := left - {(user, p)};
        assert parents - (todo - {p}) == (parents - todo) + {p};
        todo := todo - {p};
      }
      assert parents - todo == parents;
      if forall e :: e in stale ==> e.0 == user && e.1 in parents {
        forall e | e in stale ensures e in (set p | p in parents :: (user, p)) { assert e == (user, e.1); }
        assert left == {};
      }
    }

    // ---- Moving -------------------------------------------------------------

    method IsChildFolder(user: Id, folder: Id, anc: Id) returns (below: bool)
      requires Ok() && Acyclic(rows)
      ensures below ==> WalkFinds(rows, user, folder, anc)
      ensures reliable && !below ==> !WalkFinds(rows, user, folder, anc)
    {
      hide Acyclic, UniqueNames, UniqueHashes, Shaped, ObjectsExist, Above;
      var f := Fault(reliable);
      if f || !LiveFolder(rows, user, folder) { return false; }
      assert Up(rows, folder, 0) == Some(folder);
      var cur := rows[folder].parent;
      ghost var n := 1;
      while cur.Some?
        invariant n > 0 && Up(rows, folder, n) == cur
        invariant cur.Some? ==> cur.value in rows
        invariant OpenWalk(rows, user, folder, n)
        invariant forall k: nat :: 0 < k < n ==> Up(rows, folder, k) != Some(anc)
        decreases cur.Some?, if cur.Some? then Above(rows, cur.value) else {}
      {
        if cur.value == anc { return true; }
        f := Fault(reliable);
        if f || !Sees(LiveOf(user), rows[cur.value]) {
          forall m: nat | m > n && reliable ensures !OpenWalk(rows, user, folder, m) {
            assert Up(rows, folder, n) == cur;
          }
          return false;
        }
        if rows[cur.value].parent.Some? { AboveShrinks(rows, cur.value, rows[cur.value].parent.value); }
        cur := rows[cur.value].parent;
        n := n + 1;
      }
      forall k: nat | k > 0 ensures Up(rows, folder, k) != Some(anc) {
        if k >= n && Up(rows, folder, k).Some? { UpPrefix(rows, folder, n, k); }
      }
      return false;
    }

    // Refuses a target that is missing, moved itself, or seen to lie below a moved row.
    method MoveGuard(user: Id, ids: seq<Id>, target: Option<Id>) returns (pass: bool)
      requires Ok() && Acyclic(rows)
      ensures pass ==> TargetOk(rows, user, target)
      ensures reliable ==> (pass <==> GuardPasses(rows, user, ids, target))
      ensures reliable && target.Some? && target.value != 0 && AncestorsLive(rows, user, target) ==>
        (pass <==>
          && LiveFolder(rows, user, target.value)
          && forall m :: m in ids ==> m != target.value && !ProperlyUnder(rows, target.value, m))
    {
      hide Schema, Acyclic, WalkFinds, ProperlyUnder, AncestorsLive;
      GuardWithLiveAncestors(rows, user, ids, target);
      if target.None? || target.value == 0 { return true; }
      var f := Fault(reliable);
      if f || !LiveFolder(rows, user, target.value) { return false; }
      var i := 0;
      while i < |ids|
        invariant 0 <= i <= |ids|
        invariant reliable ==> forall k :: 0 <= k < i ==>
          ids[k] != target.value && !WalkFinds(rows, user, target.value, ids[k])
      {
        assert ids[i] in ids;
        if target.value == ids[i] { return false; }
        var below := IsChildFolder(user, target.value, ids[i]);
        if below { return false; }
        i := i + 1;
      }
      return true;
    }

    // Moves rows of any folders below one target. The forest survives exactly when no
    // moved row is an ancestor of the target; the guard misses those behind a recycled row.
    method MoveFiles(user: Id, ids: seq<Id>, target: Option<Id>) returns (ok: bool, ghost stamp: nat)
      requires Ok() && Acyclic(rows)
      modifies `rows, `log, `pages
      ensures Ok() && old(log) <= log
      ensures old(Safe(rows, objs)) ==> Safe(rows, objs) && SafeFrom(log, |old(log)|)
      ensures old(Exact(rows, objs)) ==> Exact(rows, objs)
      ensures rows == if ok then Reparented(old(rows), Selected(old(rows), user, ids), target, stamp) else old(rows)
      ensures reliable ==> (ok <==> MoveAllowed(old(rows), user, ids, target))
      ensures ok && target.Some? && target.value != 0 ==>
        && target.value in old(rows)
        && var folder := old(rows)[target.value]; folder.isDir && folder.user == user && !folder.deleted
      ensures !ok ==> Acyclic(rows)
      ensures ok ==> (Acyclic(rows) <==> Clear(old(rows), Selected(old(rows), user, ids), target))
      ensures reliable && ok && target != Some(0) ==> (Acyclic(rows) <==>
        forall m :: m in Selected(old(rows), user, ids) ==> !HiddenAncestor(old(rows), user, target, m))
      ensures reliable && ok && target != Some(0) && old(AncestorsLive(rows, user, target)) ==> Acyclic(rows)
      ensures old(Coherent(rows, nextRow, pages, query)) ==> Coherent(rows, nextRow, pages, query)
      ensures old(Placed(rows, objs, blobs)) ==> Placed(rows, objs, blobs)
    {
      hide Exact, Safe, Acyclic, Coherent, UniqueNames, UniqueHashes, ObjectsExist, Shaped, Placed;
      hide GuardPasses, HiddenAncestor, AncestorsLive, Clear, NameInUse, MoveAllowed;
      var now := Now();
      stamp := now;
      MoveVerdict(rows, user, ids, target, now);
      ok := MoveGuard(user, ids, target);
      if !ok { return; }
      var s := Selected(rows, user, ids);
      var f := Fault(reliable);
      if f || |s| != |ids| { return false, now; }
      var clash := CheckNames(user, s, target);
      if clash { return false, now; }
      var t := Reparented(rows, s, target, now);
      MoveAcyclicIff(rows, t, s, target);
      if reliable && target != Some(0) { GuardLeavesHidden(rows, user, ids, target, s); }
      ok := UpdateMany(user, s, t, (set i | i in s :: CacheParent(rows[i].parent)) + {CacheParent(target)});
    }

    // Is any of these names taken in the target folder?
    method CheckNames(user: Id, s: set<Id>, target: Option<Id>) returns (stop: bool)
      requires s <= rows.Keys
      ensures !stop ==> forall f :: f in s ==> !NameInUse(rows, user, target, rows[f].name)
      ensures reliable && stop ==> exists f :: f in s && NameInUse(rows, user, target, rows[f].name)
    {
      var files := Fetch(s);
      var i := 0;
      while i < |files|
        invariant 0 <= i <= |files|
        invariant forall k :: 0 <= k < i ==> !NameInUse(rows, user, target, rows[files[k]].name)
      {
        var f := Fault(reliable);
        if f || NameInUse(rows, user, target, rows[files[i]].name) { return true; }
        i := i + 1;
      }
      return false;
    }

    // ---- Listing ------------------------------------------------------------

    method GetFileList(user: Id, parent: Option<Id>, r: PageReq) returns (page: Option<Page>)
      requires Ok()
      modifies `pages
      ensures reliable ==> page.Some?
      ensures old(Coherent(rows, nextRow, pages, query)) ==> Coherent(rows, nextRow, pages, query)
      ensures
        old(Coherent(rows, nextRow, pages, query)) && page.Some? && Relevant(rows, nextRow, CacheParent(parent)) ==>
        page.value == query(FolderView(rows, user, CacheParent(parent)), r)
    {
      var p := CacheParent(parent);
      var key := ListKey(user, p, r);
      var live: bool := *;
      if key in pages && live { return Some(pages[key]); }
      var f := Fault(reliable);
      if f { return None; }
      page := Some(query(FolderView(rows, user, p), r));
      if Coherent(rows, nextRow, pages, query) { StoreCoherent(rows, nextRow, pages, query, user, p, r); }
      pages := pages[key := page.value];
    }

    // Redis may drop any entry at any time.
    method Expire(gone: set<string>, ids: set<Id>, hashes: set<string>, paths: set<Loc>)
      modifies `pages, `cache
      ensures old(Coherent(rows, nextRow, pages, query)) ==> Coherent(rows, nextRow, pages, query)
      ensures old(Cached()) ==> Cached()
      ensures old(Cached() && NoGhosts(objs, cache)) ==> NoGhosts(objs, cache)
      ensures pages == old(pages) - gone
    {
      if Coherent(rows, nextRow, pages, query) { ExpiryCoherent(rows, nextRow, pages, query, gone); }
      pages := pages - gone;
      Forget(ids, hashes, paths);
    }

    // ---- Permanent deletion -------------------------------------------------

    // One row and, for a folder, everything below it.
    method DeleteTree(f: Id) returns (ok: bool, bytes: int)
      requires Ok() && Acyclic(rows) && f in rows
      modifies `rows, `objs, `log, `cache, `blobs
      ensures Ok() && old(log) <= log && Acyclic(rows)
      ensures old(Safe(rows, objs)) ==>
        && Safe(rows, objs) && SafeFrom(log, |old(log)|)
        && Emptied(old(objs), old(blobs), rows, objs, blobs, old(Placed(rows, objs, blobs)))
      ensures reliable && old(Exact(rows, objs)) ==>
        Exact(rows, objs) && blobs == old(blobs) - LostBlobs(old(objs), objs)
      ensures Pruned(old(rows), rows, Sub(old(rows), Everything, f))
      ensures Thinned(old(objs), objs)
      ensures ok ==>
        && rows == old(rows) - Sub(old(rows), Everything, f)
        && bytes == FileBytes(old(rows), Sub(old(rows), Everything, f))
      ensures reliable && old(Exact(rows, objs)) ==> (ok <==> FilesAreLeaves(old(rows), Everything, f))
      ensures old(Cached()) ==> Cached()
      ensures reliable && old(Cached() && NoGhosts(objs, cache)) ==> NoGhosts(objs, cache)
      decreases Sub(rows, Everything, f), 1
    {
      hide UniqueNames, UniqueHashes, ObjectsExist, ParentsExist, Exact, Safe, ExactOwing, SafeOwing, Acyclic;
      hide Emptied, LostBlobs, Placed;
      hide CacheOk, NoGhosts, Sub, Childless, FilesAreLeaves;
      ghost var t, s := rows, Sub(rows, Everything, f);
      var r := rows[f];
      if r.isDir {
        FolderDone(t, f);
        ok, bytes := DeleteFolderRecursively(f);
        if !ok { return; }
        ghost var rest := rows;
        RemoveOwes(rows, objs, f);
        ok := DeleteRow(f);
        if ok {
          PrunedAcyclic(rest, rows, {f});
          if old(Safe(rows, objs)) {
            EmptiedShrinks(old(objs), old(blobs), rest, objs, blobs, rows, old(Placed(rows, objs, blobs)));
          }
        }
      } else {
        LeavesOfFile(t, f);
        BytesOne(t, f);
        RemoveOwes(t, objs, f);
        bytes := r.size;
        ok := DeleteRow(f);
        if !ok { NothingLost(objs, rows, blobs); return; }
        PrunedAcyclic(t, rows, {f});
        FewerRowsStayPlaced(t, objs, rows, blobs);
        ghost var mid := Placed(rows, objs, blobs);
        ok := RemoveObject(r.obj.value);
        if old(Safe(rows, objs)) {
          EmptiedWeaker(old(objs), old(blobs), rows, objs, blobs, old(Placed(rows, objs, blobs)), mid);
        }
      }
    }

    method DeleteFolderRecursively(f: Id) returns (ok: bool, bytes: int)
      requires Ok() && Acyclic(rows) && f in rows && rows[f].isDir
      modifies `rows, `objs, `log, `cache, `blobs
      ensures Ok() && old(log) <= log && Acyclic(rows)
      ensures old(Safe(rows, objs)) ==>
        && Safe(rows, objs) && SafeFrom(log, |old(log)|)
        && Emptied(old(objs), old(blobs), rows, objs, blobs, old(Placed(rows, objs, blobs)))
      ensures reliable && old(Exact(rows, objs)) ==>
        Exact(rows, objs) && blobs == old(blobs) - LostBlobs(old(objs), objs)
      ensures Pruned(old(rows), rows, Sub(old(rows), Everything, f) - {f})
      ensures Thinned(old(objs), objs)
      ensures ok ==>
        && rows == old(rows) - (Sub(old(rows), Everything, f) - {f})
        && bytes == FileBytes(old(rows), Sub(old(rows), Everything, f) - {f})
      ensures reliable && old(Exact(rows, objs)) ==> (ok <==> FilesAreLeaves(old(rows), Everything, f))
      ensures old(Cached()) ==> Cached()
      ensures reliable && old(Cached() && NoGhosts(objs, cache)) ==> NoGhosts(objs, cache)
      decreases Sub(rows, Everything, f), 0
    {
      hide Schema, Exact, Safe, Acyclic, Emptied, LostBlobs, Thinned, CacheOk, NoGhosts, Sub, Gone, FilesAreLeaves;
      hide FileBytes, Placed, Pruned;
      ghost var t := rows;
      var ch := Fetch(Kids(rows, Everything, f));
      bytes := 0;
      var i := 0;
      StartOfDeletion(t, f, ch, objs, blobs);
      NothingPruned(t, Sub(t, Everything, f) - {f});
      while i < |ch|
        invariant 0 <= i <= |ch|
        invariant Ok() && old(log) <= log && Acyclic(rows)
        invariant old(Safe(rows, objs)) ==>
          && Safe(rows, objs) && SafeFrom(log, |old(log)|)
          && Emptied(old(objs), old(blobs), rows, objs, blobs, old(Placed(rows, objs, blobs)))
        invariant reliable && old(Exact(rows, objs)) ==>
          Exact(rows, objs) && blobs == old(blobs) - LostBlobs(old(objs), objs)
        invariant Thinned(old(objs), objs) && Pruned(t, rows, Sub(t, Everything, f) - {f})
        invariant Gone(t, Everything, ch, i) <= t.Keys
        invariant rows == t - Gone(t, Everything, ch, i) && bytes == FileBytes(t, Gone(t, Everything, ch, i))
        invariant reliable && old(Exact(rows, objs)) ==> forall k :: 0 <= k < i ==> FilesAreLeaves(t, Everything, ch[k])
        invariant old(Cached()) ==> Cached()
        invariant reliable && old(Cached() && NoGhosts(objs, cache)) ==> NoGhosts(objs, cache)
      {
        assert ch[i] in ch;
        GoneStep(t, Everything, f, ch, i);
        SiblingKept(t, f, ch, i);
        ChildDone(t, f, ch, i);
        ghost var t1, objs1, blobs1 := rows, objs, blobs;
        var b;
        ok, b := DeleteTree(ch[i]);
        PrunedFurther(t, t1, rows, f, ch, i);
        ThinnedTrans(old(objs), objs1, objs);
        if old(Safe(rows, objs)) {
          EmptiedTrans(old(objs), old(blobs), t1, objs1, blobs1, rows, objs, blobs, old(Placed(rows, objs, blobs)));
        }
        if !ok { LeavesOfFolder(t, f); return; }
        bytes := bytes + b;
        i := i + 1;
      }
      ok := true;
      GoneAll(t, Everything, f, ch);
      LeavesOfFolder(t, f);
    }

    // Permanently deletes a recycled file or folder; `bytes` is what the activity event reports.
    method DeleteFileRecord(user: Id, file: Id) returns (ok: bool, bytes: int)
      requires Ok() && Acyclic(rows)
      modifies `rows, `objs, `log, `cache, `blobs, `pages
      ensures Ok() && old(log) <= log && Acyclic(rows)
      ensures old(Safe(rows, objs)) ==>
        && Safe(rows, objs) && SafeFrom(log, |old(log)|)
        && Emptied(old(objs), old(blobs), rows, objs, blobs, old(Placed(rows, objs, blobs)))
      ensures reliable && old(Exact(rows, objs)) ==>
        Exact(rows, objs) && blobs == old(blobs) - LostBlobs(old(objs), objs)
      ensures Pruned(old(rows), rows, Sub(old(rows), Everything, file)) && Thinned(old(objs), objs)
      ensures ok ==>
        && rows == old(rows) - Sub(old(rows), Everything, file)
        && bytes == FileBytes(old(rows), Sub(old(rows), Everything, file))
      ensures ok ==> file in old(rows) && old(rows)[file].user == user && old(rows)[file].deleted
      ensures reliable && old(Exact(rows, objs)) ==> (ok <==>
        && file in old(rows) && old(rows)[file].user == user && old(rows)[file].deleted
        && FilesAreLeaves(old(rows), Everything, file))
      ensures old(Safe(rows, objs)) ==>
        Submap(blobs, old(blobs)) && (old(Placed(rows, objs, blobs)) ==> Placed(rows, objs, blobs))
      ensures ok && old(Coherent(rows, nextRow, pages, query)) ==> Coherent(rows, nextRow, pages, query)
      ensures !ok ==> pages == old(pages)
      ensures rows == old(rows) && old(Coherent(rows, nextRow, pages, query)) ==> Coherent(rows, nextRow, pages, query)
      ensures !ok && old(Coherent(rows, nextRow, pages, query)) ==> (Coherent(rows, nextRow, pages, query) <==>
        forall u: Id, p: Id :: p in DeletionTouches(old(rows), file) && Relevant(rows, nextRow, p) ==>
          PagesStand(old(rows), rows, pages, query, u, p))
      ensures old(Cached()) ==> Cached()
      ensures reliable && old(Cached() && NoGhosts(objs, cache)) ==> NoGhosts(objs, cache)
    {
      hide UniqueNames, UniqueHashes, ObjectsExist, Exact, Safe, Acyclic, Emptied, LostBlobs, CacheOk, NoGhosts;
      hide Placed, Submap;
      hide Sub, FilesAreLeaves, Coherent, CoherentExcept, DeletionTouches, PagesStand, Pruned, Relevant, SafeFrom;
      hide FileBytes, Thinned, Shaped;
      NothingLost(objs, rows, blobs);
      NothingPruned(rows, Sub(rows, Everything, file));
      ghost var t := rows;
      EmptiedMeans(objs, blobs, rows, objs, blobs, Placed(rows, objs, blobs));
      SafeFromNow(log);
      if Coherent(rows, nextRow, pages, query) { PagesAfterDeletion(rows, nextRow, rows, file, pages, query); }
      bytes := 0;
      var f := Fault(reliable);
      if f || file !in rows || rows[file].user != user || !rows[file].deleted { return false, 0; }
      var parent := rows[file].parent;
      if Coherent(rows, nextRow, pages, query) { DeleteChangesOne(rows, nextRow, file, pages, query); }
      ok, bytes := DeleteTree(file);
      if old(Safe(rows, objs)) {
        EmptiedMeans(old(objs), old(blobs), rows, objs, blobs, old(Placed(rows, objs, blobs)));
      }
      if old(Coherent(rows, nextRow, pages, query)) { PagesAfterDeletion(t, nextRow, rows, file, pages, query); }
      if ok { InvalidateFileListCache(user, parent, {(user, CacheParent(parent))}); }
    }

    // ---- Copying ------------------------------------------------------------

    // Copies the live children of f into the new folder n.
    method CopyChildren(user: Id, f: Id, n: Id, target: Option<Id>, ghost base: Table, ghost stale: set<(Id, Id)>)
      returns (ok: bool, ghost c: map<Id, Id>)
      requires Ok() && Acyclic(rows) && Acyclic(base) && f in base && base[f].isDir
      requires Quiet(base, rows, Sub(base, LiveOf(user), f))
      requires n !in base && LiveFolder(rows, user, n) && Childless(rows, n) && nextRow == n + 1
      requires SameLabel(base[f], rows[n]) && rows[n].parent == target
      modifies `rows, `nextRow, `objs, `log, `cache, `pages
      ensures Ok() && old(log) <= log && Acyclic(rows)
      ensures GrownUnder(old(rows), rows, n + 1, nextRow, Some(n))
      ensures ok ==>
        && IsCopy(base, rows, user, f, target, c)
        && n in c.Values && rows.Keys == old(rows).Keys + c.Values && forall x :: x in c.Values ==> n <= x < nextRow
      ensures ok || reliable ==> Charged(old(objs), objs, old(rows), rows)
      ensures ok ==> NoStrangers(base, user, f)
      ensures reliable && NoStrangers(base, user, f) ==> ok
      ensures old(Cached()) ==> Cached()
      ensures old(NoGhosts(objs, cache)) ==> NoGhosts(objs, cache)
      ensures ok && old(CoherentExcept(rows, nextRow, pages, query, stale)) ==>
        CoherentExcept(rows, nextRow, pages, query, stale)
      ensures Copied(user, old(Here()), Here())
      decreases Sub(base, LiveOf(user), f), 0
    {
      hide UniqueHashes, ObjectsExist, ParentsExist, Shaped, Acyclic, CacheOk, NoGhosts, CoherentExcept, Copied;
      hide IsCopy, AllCopies, Charged, Sub, NoStrangers, NameInUse, CopyAllowed, Join, UniqueNames;
      hide GrownUnder, Childless, Quiet, CopyDone, Zone, SameLabel, Selected;
      ghost var h0 := Here();
      CopiedNothing(user, h0);
      ghost var t1 := rows;
      ok, c := false, map[];
      GrownRows(rows, rows, n + 1, n + 1, Some(n));
      ChargedStart(objs, rows);
      StartOfCopy(base, rows, user, f);
      var fault := Fault(reliable);
      if fault { return; }
      var children := Fetch(Kids(rows, Live, f));
      StartOfChildren(base, rows, user, f, n, children);
      ghost var files: seq<Id>, copies: seq<map<Id, Id>> := [], [];
      if |children| > 0 {
        ok, files, copies := CopyBatch(user, children, Some(n), base, stale);
        if !ok { return; }
        WeakenStale(rows, nextRow, pages, query, stale - {(user, n)}, stale);
        SelectedAll(base, user, children);
      } else {
        ok := true;
        EmptyCopy(base, rows, user, Some(n), nextRow);
        NoKidsNoStrangers(base, user, f);
      }
      GrownRows(t1, rows, n + 1, nextRow, Some(n));
      FolderCopied(base, t1, rows, user, f, n, target, files, copies, nextRow);
      c := Join(copies)[f := n];
    }

    // The new row of a copied file or folder.
    method CopyRow(user: Id, f: Id, target: Option<Id>, ghost base: Table, ghost stale: set<(Id, Id)>)
      returns (id: Option<Id>)
      requires Ok() && Acyclic(rows)
      requires f in base && Sees(LiveOf(user), base[f]) && TargetOk(rows, user, target)
      requires Quiet(base, rows, Sub(base, LiveOf(user), f))
      requires target.Some? ==> target.value !in Sub(base, LiveOf(user), f)
      modifies `rows, `nextRow, `log
      ensures Ok() && Acyclic(rows)
      ensures id.None? ==> rows == old(rows) && nextRow == old(nextRow) && log == old(log)
      ensures f in rows && rows[f] == base[f] && (base[f].isDir <==> base[f].obj.None?)
      ensures (base[f].obj.Some? ==> base[f].obj.value in objs)
      ensures f in old(rows) && old(rows)[f] == base[f]
      ensures forall i :: i in old(rows) ==> 0 < i < old(nextRow)
      ensures id.Some? ==> var n := old(nextRow);
        && id.value == n && n !in old(rows) && n !in base && nextRow == n + 1 && n in rows
        && rows == old(rows)[n := rows[n]]
        && log == old(log) + [(rows, objs)]
        && rows[n].user == user && rows[n].parent == target && rows[n].isDir == base[f].isDir
        && rows[n].obj == base[f].obj
        && rows[n].name == base[f].name && SameLabel(base[f], rows[n]) && Childless(rows, n)
        && GrownUnder(old(rows), rows, n, n + 1, target) && Quiet(base, rows, Sub(base, LiveOf(user), f))
        && (base[f].isDir ==> LiveFolder(rows, user, n))
        && target != Some(0) && !NameInUse(old(rows), user, target, base[f].name)
        && NameAdded(old(rows), rows, user, target, base[f].name)
        && (target.Some? ==> target.value < n)
      ensures reliable && target != Some(0) && !NameInUse(old(rows), user, target, base[f].name) ==> id.Some?
      ensures id.Some? && old(CoherentExcept(rows, nextRow, pages, query, stale)) ==>
        CoherentExcept(rows, nextRow, pages, query, stale + {(user, CacheParent(target))})
    {
      hide Schema, Acyclic, CoherentExcept, GrownUnder, Quiet, TargetOk, LiveFolder, Childless;
      hide Sub, NameInUse, Insertable, NameAdded;
      ghost var t0, n := rows, nextRow;
      id := None;
      SourceRow(base, rows, objs, nextRow, nextObj, user, f);
      TargetOlder(rows, objs, nextRow, nextObj, user, target);
      var file := rows[f];
      var stamp := Now();
      var fault := Fault(reliable);
      if fault || NameInUse(rows, user, target, file.name) { return; }
      var r := Row(user, target, file.name, file.isDir, file.obj, file.size, false, stamp);
      CopyInsertable(rows, objs, user, target, r);
      id := InsertRow(r);
      if id.None? { return; }
      InsertedCopy(base, t0, rows, objs, nextObj, user, f, n, r, target);
      if old(CoherentExcept(rows, nextRow, pages, query, stale)) { InsertChangesOne(t0, n, r, pages, query, stale); }
    }

    // The body of the copy loop: one file or folder, its children, and its reference.
    method CopyOne(user: Id, f: Id, target: Option<Id>, ghost base: Table, ghost stale: set<(Id, Id)>)
      returns (ok: bool, ghost c: map<Id, Id>)
      requires Ok() && Acyclic(rows) && Acyclic(base)
      requires f in base && Sees(LiveOf(user), base[f]) && TargetOk(rows, user, target)
      requires Quiet(base, rows, Sub(base, LiveOf(user), f))
      requires target.Some? ==> target.value !in Sub(base, LiveOf(user), f)
      modifies `rows, `nextRow, `objs, `log, `cache, `pages
      ensures Ok() && old(log) <= log && Acyclic(rows)
      ensures GrownUnder(old(rows), rows, old(nextRow), nextRow, target)
      ensures ok ==>
        && IsCopy(base, rows, user, f, target, c)
        && rows.Keys == old(rows).Keys + c.Values && forall x :: x in c.Values ==> old(nextRow) <= x < nextRow
      ensures ok || reliable ==> Charged(old(objs), objs, old(rows), rows)
      ensures ok ==>
        target != Some(0) && !NameInUse(old(rows), user, target, base[f].name) && NoStrangers(base, user, f)
      ensures
        reliable && target != Some(0) && !NameInUse(old(rows), user, target, base[f].name) &&
        NoStrangers(base, user, f) ==>
        ok
      ensures ok ==> NameAdded(old(rows), rows, user, target, base[f].name)
      ensures old(Cached()) ==> Cached()
      ensures old(NoGhosts(objs, cache)) ==> NoGhosts(objs, cache)
      ensures ok && old(CoherentExcept(rows, nextRow, pages, query, stale)) ==>
        CoherentExcept(rows, nextRow, pages, query, stale + {(user, CacheParent(target))})
      ensures Copied(user, old(Here()), Here())
      decreases Sub(base, LiveOf(user), f), 1
    {
      hide Schema, Acyclic, CacheOk, NoGhosts, CoherentExcept, GrownUnder, Quiet, TargetOk, LiveFolder, Childless;
      hide Copied;
      hide IsCopy, Charged, Sub, NoStrangers, NameInUse, Insertable, NameAdded, CacheOkBut, SameLabel;
      ghost var h0 := Here();
      CopiedNothing(user, h0);
      ghost var t0, objs0, n := rows, objs, nextRow;
      ok, c := false, map[];
      ChargedStart(objs, rows);
      NoStrangersUnfold(base, user, f);
      GrownRows(rows, rows, nextRow, nextRow, target);
      var id := CopyRow(user, f, target, base, stale);
      if id.None? { return; }
      ghost var h1, t1, r := Here(), rows, rows[n];
      ChargedRow(objs, t0, n, r);
      var file := rows[f];
      if file.isDir {
        CopiedFolder(user, h0, h1, n, r);
        ok, c := CopyChildren(user, f, id.value, target, base, stale + {(user, CacheParent(target))});
        CopiedTrans(user, h0, h1, Here());
        ChargedIfDone(objs0, objs0, objs, t0, t1, rows, ok || reliable);
        GrownBelowChild(t0, t1, rows, n, nextRow, r, target);
        NamesBelowChild(t0, t1, rows, n, nextRow, user, target, r.name);
      } else {
        ok := IncreaseRefCount(file.obj.value);
        assert h0.rows[f].obj == Some(file.obj.value);
        CopiedFile(user, h0, Here(), n, r, file.obj.value);
        SingleCopy(base, rows, user, f, n, target);
        c := map[f := n];
        assert c.Values == {n};
      }
    }

    method CopyBatch(user: Id, ids: seq<Id>, target: Option<Id>, ghost base: Table, ghost stale: set<(Id, Id)>)
      returns (ok: bool, ghost files: seq<Id>, ghost copies: seq<map<Id, Id>>)
      requires Ok() && Acyclic(rows) && Acyclic(base)
      requires forall i :: i in ids && i in rows ==> i in base
      requires Quiet(base, rows, Zone(base, user, Selected(base, user, ids)))
      requires target.Some? ==> target.value !in Zone(base, user, Selected(base, user, ids))
      modifies `rows, `nextRow, `objs, `log, `cache, `pages
      ensures Ok() && old(log) <= log && Acyclic(rows)
      ensures GrownUnder(old(rows), rows, old(nextRow), nextRow, target)
      ensures ok ==>
        && |Selected(base, user, ids)| == |ids| == |files| && (forall i :: i in ids <==> i in files)
        && (forall j, k :: 0 <= j < k < |files| ==> files[j] != files[k])
        && CopyDone(base, old(rows), rows, user, files, target, copies, old(nextRow), nextRow)
      ensures ok || reliable ==> Charged(old(objs), objs, old(rows), rows)
      ensures ok ==> CopyAllowed(base, old(rows), user, ids, target)
      ensures reliable && CopyAllowed(base, old(rows), user, ids, target) ==> ok
      ensures old(Cached()) ==> Cached()
      ensures old(NoGhosts(objs, cache)) ==> NoGhosts(objs, cache)
      ensures ok && old(CoherentExcept(rows, nextRow, pages, query, stale)) ==>
        CoherentExcept(rows, nextRow, pages, query, stale - {(user, CacheParent(target))})
      ensures Copied(user, old(Here()), Here())
      decreases Zone(base, user, Selected(base, user, ids)), 3
    {
      hide Schema, Acyclic, CacheOk, NoGhosts, CoherentExcept, GrownUnder, CopyDone, TargetOk, Copied;
      hide Charged, Sub, Quiet, FileAllowed, CopyAllowed, Zone, Selected;
      ghost var h0 := Here();
      CopiedNothing(user, h0);
      ghost var s := Selected(base, user, ids);
      ok, files, copies := false, [], [];
      ChargedStart(objs, rows);
      QuietBase(base, rows, Zone(base, user, s));
      SameSelection(base, rows, user, ids);
      StartOfBatch(base, rows, user, target, [], nextRow);
      if CopyAllowed(base, rows, user, ids, target) { AllowedNeeds(base, rows, user, ids, target); }
      var fault := Fault(reliable);
      if fault || !TargetOk(rows, user, target) { return; }
      var found := Fetch(Selected(rows, user, ids));
      files := found;
      if |found| != |ids| { return; }
      SelectedAll(base, user, ids);
      BatchVerdict(base, rows, user, ids, target, found);
      forall x | x in found ensures x in s && x in base && Sees(LiveOf(user), base[x]) {
        SelectedRow(base, user, ids, x);
      }
      ok, copies := CopyEach(user, found, target, base, stale, s);
    }

    // The copy loop over the rows the query returned, and the invalidation at its end.
    method CopyEach(user: Id, found: seq<Id>, target: Option<Id>, ghost base: Table, ghost stale: set<(Id, Id)>,
      ghost s: set<Id>)
      returns (ok: bool, ghost copies: seq<map<Id, Id>>)
      requires Ok() && Acyclic(rows) && Acyclic(base) && TargetOk(rows, user, target)
      requires forall x :: x in found ==> x in s && x in base && Sees(LiveOf(user), base[x])
      requires Quiet(base, rows, Zone(base, user, s))
      requires target.Some? ==> target.value !in Zone(base, user, s)
      modifies `rows, `nextRow, `objs, `log, `cache, `pages
      ensures Ok() && old(log) <= log && Acyclic(rows)
      ensures GrownUnder(old(rows), rows, old(nextRow), nextRow, target)
      ensures ok ==> CopyDone(base, old(rows), rows, user, found, target, copies, old(nextRow), nextRow)
      ensures ok || reliable ==> Charged(old(objs), objs, old(rows), rows)
      ensures ok ==> forall i :: 0 <= i < |found| ==> FileAllowed(base, old(rows), user, target, found, i)
      ensures reliable && (forall i :: 0 <= i < |found| ==> FileAllowed(base, old(rows), user, target, found, i)) ==> ok
      ensures old(Cached()) ==> Cached()
      ensures old(NoGhosts(objs, cache)) ==> NoGhosts(objs, cache)
      ensures ok && old(CoherentExcept(rows, nextRow, pages, query, stale)) ==>
        CoherentExcept(rows, nextRow, pages, query, stale - {(user, CacheParent(target))})
      ensures Copied(user, old(Here()), Here())
      decreases Zone(base, user, s), 2
    {
      hide Schema, Acyclic, CacheOk, NoGhosts, CoherentExcept, GrownUnder, CopyDone, TargetOk, Sees, Copied;
      hide IsCopy, Charged, Sub, NoStrangers, NameInUse, Quiet, FileAllowed, Zone, CopyLoop, NameAdded;
      ghost var h0 := Here();
      CopiedNothing(user, h0);
      ghost var t0, lo := rows, nextRow;
      ghost var zone, now := Zone(base, user, s), stale + {(user, CacheParent(target))};
      ok, copies := false, [];
      ChargedStart(objs, rows);
      WeakenStale(rows, nextRow, pages, query, stale, now);
      CopyLoopStarts(base, rows, user, target, found, lo, zone);
      var i := 0;
      while i < |found|
        invariant 0 <= i <= |found|
        invariant Ok() && old(log) <= log && Acyclic(rows)
        invariant CopyLoop(base, t0, rows, user, target, found, i, copies, lo, nextRow, zone)
        invariant Charged(old(objs), objs, t0, rows) && Copied(user, h0, Here())
        invariant forall k :: 0 <= k < i ==> FileAllowed(base, t0, user, target, found, k)
        invariant old(Cached()) ==> Cached()
        invariant old(NoGhosts(objs, cache)) ==> NoGhosts(objs, cache)
        invariant old(CoherentExcept(rows, nextRow, pages, query, stale)) ==>
          CoherentExcept(rows, nextRow, pages, query, now)
      {
        ghost var t1, mid, objs1, f := rows, nextRow, objs, found[i];
        assert f in found;
        InZone(base, user, s, f);
        CopyLoopFacts(base, t0, t1, user, target, found, i, copies, lo, mid, zone, Sub(base, LiveOf(user), f));
        ghost var h1 := Here();
        var one;
        ghost var c;
        one, c := CopyOne(user, found[i], target, base, now);
        CopiedTrans(user, h0, h1, Here());
        ChargedIfDone(old(objs), objs1, objs, t0, t1, rows, one || reliable);
        CopyLoopSteps(base, t0, t1, rows, objs1, nextObj, user, target, found, i, copies, c, lo, mid, nextRow, zone);
        if !one { return; }
        copies := copies + [c];
        i := i + 1;
        assert now + {(user, CacheParent(target))} == now;
      }
      CopyLoopEnds(base, t0, rows, user, target, found, copies, lo, nextRow, zone);
      ok := true;
      ghost var h2 := Here();
      InvalidateFileListCache(user, target, now);
      CopiedPages(user, h2, Here());
      CopiedTrans(user, h0, h2, Here());
      assert now - {(user, CacheParent(target))} == stale - {(user, CacheParent(target))};
    }

    // A deep copy of every listed file and folder under the target. `copies` maps each
    // source row to its copy. The code does not check that the target lies outside the
    // sources; a copy into one of them cannot succeed.
    method CopyFiles(user: Id, ids: seq<Id>, target: Option<Id>)
      returns (ok: bool, ghost files: seq<Id>, ghost copies: seq<map<Id, Id>>)
      requires Ok() && Acyclic(rows)
      requires target.Some? ==> target.value !in Zone(rows, user, Selected(rows, user, ids))
      modifies `rows, `nextRow, `objs, `log, `cache, `pages
      ensures Ok() && old(log) <= log && Acyclic(rows)
      ensures GrownUnder(old(rows), rows, old(nextRow), nextRow, target)
      ensures ok ==>
        && |files| == |ids| && (forall i :: i in ids <==> i in files)
        && (forall j, k :: 0 <= j < k < |files| ==> files[j] != files[k])
        && CopyDone(old(rows), old(rows), rows, user, files, target, copies, old(nextRow), nextRow)
      ensures ok ==>
        forall k :: 0 <= k < |files| ==> files[k] in old(rows) && copies[k].Keys == Sub(old(rows), Live, files[k])
      ensures ok ==> objs.Keys == old(objs).Keys && forall o :: o in objs ==>
        objs[o] == old(objs)[o].(refCount := old(objs)[o].refCount + Occurrences(old(rows), user, files, o))
      ensures reliable ==> (ok <==> CopyAllowed(old(rows), old(rows), user, ids, target))
      ensures ok && target.Some? && target.value != 0 ==>
        && target.value in old(rows)
        && var folder := old(rows)[target.value]; folder.isDir && folder.user == user && !folder.deleted
      ensures reliable && old(Exact(rows, objs)) ==> Exact(rows, objs)
      ensures reliable && old(Safe(rows, objs)) ==> Safe(rows, objs)
      ensures old(Cached()) ==> Cached()
      ensures old(NoGhosts(objs, cache)) ==> NoGhosts(objs, cache)
      ensures ok && old(Coherent(rows, nextRow, pages, query)) ==> Coherent(rows, nextRow, pages, query)
      ensures old(Placed(rows, objs, blobs)) ==> Placed(rows, objs, blobs)
      ensures Added(user, old(Here()), Here())
      ensures old(Exact(rows, objs)) ==> (SafeFrom(log, |old(log)|) <==> FoldersOnly(old(rows), rows))
      ensures old(Coherent(rows, nextRow, pages, query)) ==> (Coherent(rows, nextRow, pages, query) <==>
        forall u: Id, p: Id :: p in CopyTouches(old(rows), rows, target) && Relevant(rows, nextRow, p) ==>
          PagesStand(old(rows), rows, pages, query, u, p))
      ensures rows == old(rows) && old(Coherent(rows, nextRow, pages, query)) ==> Coherent(rows, nextRow, pages, query)
      ensures ok ==>
        (FoldersOnly(old(rows), rows) <==>
          forall k, x :: 0 <= k < |copies| && x in copies[k] ==> x in old(rows) && old(rows)[x].isDir)
    {
      hide Schema, Sub, Occurrences, Acyclic, CacheOk, NoGhosts, CoherentExcept, Placed, Added, GrownUnder, CopyDone;
      hide CopyAllowed;
      hide Exact, Safe, Charged, FoldersOnly, SafeFrom;
      ghost var t0 := rows;
      QuietAtFirst(rows, objs, nextRow, nextObj, user, ids, target);
      assert Quiet(rows, rows, Zone(rows, user, Selected(rows, user, ids)));
      ok, files, copies := CopyBatch(user, ids, target, rows, {});
      CopyOutcome(user, old(Here()), Here(), blobs);
      if old(Coherent(rows, nextRow, pages, query)) {
        PagesAfterCopy(user, old(Here()), Here(), old(nextRow), nextRow, nextObj, target, query);
      }
      if ok || reliable { ChargedGrown(old(objs), objs, t0, rows, old(nextRow), nextRow, nextObj, target); }
      if !ok { return; }
      AllowedTarget(t0, user, ids, target);
      assert {} - {(user, CacheParent(target))} == {};
      CopySucceeded(t0, rows, old(objs), objs, user, ids, files, target, copies, old(nextRow), nextRow);
    }
  }
}
