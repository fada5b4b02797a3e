// file_object rows and the manual reference counts that user_file rows hold on them,
// together with the constraints the database itself enforces on both tables.

module References {
  import opened Wrappers
  import opened Forest

  datatype Loc = Loc(bucket: string, path: string)

  datatype Obj = Obj(owner: Id, hash: string, loc: Loc, size: int, refCount: int)

  type Objects = map<Id, Obj>

  // The rows, live or recycled, that point at object o.
  ghost function Holders(t: Table, o: Id): set<Id> {
    set i | i in t && t[i].obj == Some(o)
  }

  ghost function Refs(t: Table, o: Id): nat {
    |Holders(t, o)|
  }

  // ---- What the database enforces -----------------------------------------

  ghost predicate ObjectsExist(t: Table, objs: Objects) {
    forall i :: i in t && t[i].obj.Some? ==> t[i].obj.value in objs
  }

  // The columns of the unique index (user_id, parent_id, name, is_deleted).
  predicate SameName(a: Row, b: Row) {
    a.user == b.user && a.parent == b.parent && a.name == b.name && a.deleted == b.deleted
  }

  // MySQL does not apply the index to rows whose parent_id is NULL.
  predicate UniqueNames(t: Table) {
    forall i, j :: i in t && j in t && i != j && t[i].parent.Some? ==> !SameName(t[i], t[j])
  }

  ghost predicate UniqueHashes(objs: Objects) {
    forall a, b :: a in objs && b in objs && objs[a].hash == objs[b].hash ==> a == b
  }

  // Folders hold no object, files always hold one.
  ghost predicate Shaped(t: Table) {
    forall i :: i in t ==> (t[i].isDir <==> t[i].obj.None?)
  }

  ghost predicate Schema(t: Table, objs: Objects, nextRow: Id, nextObj: Id) {
    && ParentsExist(t) && ObjectsExist(t, objs) && UniqueNames(t) && UniqueHashes(objs) && Shaped(t)
    && nextRow > 0 && nextObj > 0
    && (forall i :: i in t ==> 0 < i < nextRow)
    && (forall o :: o in objs ==> 0 < o < nextObj)
  }

  // An INSERT of r passes the foreign keys and the unique index.
  predicate Insertable(t: Table, objs: Objects, r: Row) {
    && (r.parent.Some? ==> r.parent.value in t)
    && (r.obj.Some? ==> r.obj.value in objs)
    && (r.parent.Some? ==> forall i :: i in t ==> !SameName(t[i], r))
  }

  lemma InsertKeepsSchema(t: Table, objs: Objects, nextRow: Id, nextObj: Id, r: Row)
    requires Schema(t, objs, nextRow, nextObj) && Insertable(t, objs, r) && (r.isDir <==> r.obj.None?)
    ensures Schema(t[nextRow := r], objs, nextRow + 1, nextObj) && nextRow !in t
  {
    var t' := t[nextRow := r];
    forall i, j | i in t' && j in t' && i != j && t'[i].parent.Some? ensures !SameName(t'[i], t'[j]) {
      assert i in t ==> t'[i] == t[i];
      assert j in t ==> t'[j] == t[j];
    }
  }

  lemma InsertObjectKeepsSchema(t: Table, objs: Objects, nextRow: Id, nextObj: Id, x: Obj)
    requires Schema(t, objs, nextRow, nextObj) && forall o :: o in objs ==> objs[o].hash != x.hash
    ensures Schema(t, objs[nextObj := x], nextRow, nextObj + 1) && nextObj !in objs
  {
    hide UniqueNames;
  }

  // The part of that which concerns the row's place in the tree.
  predicate PlaceFree(t: Table, user: Id, parent: Option<Id>, name: string) {
    parent.Some? ==>
      parent.value in t && forall i :: i in t ==>
        !(t[i].user == user && t[i].parent == parent && t[i].name == name && !t[i].deleted)
  }

  // Replacing row i by r passes the unique index.
  predicate Replaceable(t: Table, i: Id, r: Row) {
    r.parent.Some? ==> forall j :: j in t && j != i ==> !SameName(t[j], r)
  }

  lemma ReplaceableIff(t: Table, i: Id, r: Row)
    requires UniqueNames(t) && i in t
    ensures UniqueNames(t[i := r]) <==> Replaceable(t, i, r)
  {
    var t' := t[i := r];
    if UniqueNames(t') {
      forall j | j in t && j != i && r.parent.Some? ensures !SameName(t[j], r) {
        assert t'[i] == r && t'[j] == t[j];
      }
    }
  }

  // ---- Counting references ------------------------------------------------

  lemma RefsInsert(t: Table, n: Id, r: Row, o: Id)
    requires n !in t
    ensures Refs(t[n := r], o) == Refs(t, o) + (if r.obj == Some(o) then 1 else 0)
  {
    if r.obj == Some(o) {
      assert Holders(t[n := r], o) == Holders(t, o) + {n};
    } else {
      assert Holders(t[n := r], o) == Holders(t, o);
    }
  }

  lemma RefsRemove(t: Table, n: Id, o: Id)
    requires n in t
    ensures Refs(t, o) == Refs(t - {n}, o) + (if t[n].obj == Some(o) then 1 else 0)
  {
    var t' := t - {n};
    assert t'[n := t[n]] == t;
    RefsInsert(t', n, t[n], o);
  }

  lemma RefsSameObjects(t: Table, t': Table, o: Id)
    requires t.Keys == t'.Keys && forall i :: i in t ==> t[i].obj == t'[i].obj
    ensures Refs(t, o) == Refs(t', o)
  {
    assert Holders(t, o) == Holders(t', o);
  }

  predicate Unused(t: Table, o: Id) {
    forall i :: i in t ==> t[i].obj != Some(o)
  }

  lemma UnusedIff(t: Table, o: Id)
    ensures Unused(t, o) <==> Refs(t, o) == 0
  {
    if Unused(t, o) { assert Holders(t, o) == {}; }
    if Refs(t, o) == 0 {
      forall i | i in t ensures t[i].obj != Some(o) { assert i !in Holders(t, o); }
    }
  }

  // ---- The two invariants -------------------------------------------------

  // Every count is the number of rows, and every object is in use.
  ghost predicate Exact(t: Table, objs: Objects) {
    ObjectsExist(t, objs) && forall o :: o in objs ==> objs[o].refCount == Refs(t, o) && Refs(t, o) > 0
  }

  // No count is too low: what a crash or a failed call may never break.
  ghost predicate Safe(t: Table, objs: Objects) {
    ObjectsExist(t, objs) && forall o :: o in objs ==> objs[o].refCount >= Refs(t, o) && objs[o].refCount >= 1
  }

  // The same, with one reference to `o` counted for which there is no row.
  ghost predicate ExactOwing(t: Table, objs: Objects, o: Id) {
    && ObjectsExist(t, objs) && o in objs
    && forall p :: p in objs ==>
      objs[p].refCount == Refs(t, p) + (if p == o then 1 else 0) && (p != o ==> Refs(t, p) > 0)
  }

  ghost predicate SafeOwing(t: Table, objs: Objects, o: Id) {
    Safe(t, objs) && o in objs && objs[o].refCount >= Refs(t, o) + 1
  }

  lemma ExactIsSafe(t: Table, objs: Objects)
    requires Exact(t, objs)
    ensures Safe(t, objs)
  {}

  function Recounted(objs: Objects, o: Id, d: int): Objects {
    if o in objs then objs[o := objs[o].(refCount := objs[o].refCount + d)] else objs
  }

  // Counting a reference before its row exists.
  lemma CountFirst(t: Table, objs: Objects, o: Id)
    ensures o in objs && Exact(t, objs) ==> ExactOwing(t, Recounted(objs, o, 1), o)
    ensures o in objs && Safe(t, objs) ==> SafeOwing(t, Recounted(objs, o, 1), o)
    ensures o !in objs ==> Recounted(objs, o, 1) == objs
    ensures Recounted(objs, o, 1).Keys == objs.Keys
    ensures Safe(t, objs) ==> Safe(t, Recounted(objs, o, 1))
    ensures Recounted(Recounted(objs, o, 1), o, -1) == objs
    ensures (Safe(t, objs) || Exact(t, objs)) && o in objs ==> Recounted(objs, o, 1)[o].refCount > 1
  {}

  // A new object is created with a count of one, owed to the row that comes next.
  lemma CreateFirst(t: Table, objs: Objects, o: Id, x: Obj)
    requires ObjectsExist(t, objs) && o !in objs && x.refCount == 1
    ensures Unused(t, o) && objs[o := x] - {o} == objs
    ensures Exact(t, objs) ==> ExactOwing(t, objs[o := x], o)
    ensures Safe(t, objs) ==> SafeOwing(t, objs[o := x], o) && Safe(t, objs[o := x])
  {
    UnusedIff(t, o);
  }

  // Moving an object's content changes no count.
  lemma RelocateKeepsCounts(t: Table, objs: Objects, o: Id, x: Obj)
    requires o in objs && x.refCount == objs[o].refCount
    ensures Exact(t, objs) ==> Exact(t, objs[o := x])
    ensures Safe(t, objs) ==> Safe(t, objs[o := x])
  {}

  // Giving up an owed reference: count down while others remain, else drop the object.
  lemma GiveUp(t: Table, objs: Objects, o: Id)
    ensures SafeOwing(t, objs, o) ==> Safe(t, objs) && o in objs
    ensures ExactOwing(t, objs, o) ==> o in objs
    ensures o in objs && SafeOwing(t, objs, o) && objs[o].refCount > 1 ==> Safe(t, Recounted(objs, o, -1))
    ensures o in objs && ExactOwing(t, objs, o) && objs[o].refCount > 1 ==> Exact(t, Recounted(objs, o, -1))
    ensures o in objs && SafeOwing(t, objs, o) && objs[o].refCount <= 1 ==> Unused(t, o)
    ensures o in objs && ExactOwing(t, objs, o) && objs[o].refCount <= 1 ==> Unused(t, o) && Exact(t, objs - {o})
    ensures Safe(t, objs) && Unused(t, o) ==> Safe(t, objs - {o})
    ensures o in objs ==>
      Recounted(objs, o, -1).Keys == objs.Keys && Recounted(objs, o, -1)[o].refCount == objs[o].refCount - 1
  {
    UnusedIff(t, o);
  }

  // Counting first and inserting second is safe; the row settles the debt.
  lemma InsertSettles(t: Table, objs: Objects, n: Id, r: Row, o: Id)
    requires n !in t && r.obj == Some(o) && o in objs
    ensures ExactOwing(t, objs, o) ==> Exact(t[n := r], objs)
    ensures SafeOwing(t, objs, o) ==> Safe(t[n := r], objs)
  {
    forall p { RefsInsert(t, n, r, p); }
  }

  // A row without object (a folder) changes no count.
  lemma InsertFolder(t: Table, objs: Objects, n: Id, r: Row)
    requires n !in t && r.obj == None
    ensures Exact(t, objs) ==> Exact(t[n := r], objs)
    ensures Safe(t, objs) ==> Safe(t[n := r], objs)
  {
    forall p { RefsInsert(t, n, r, p); }
  }

  // Deleting the row first leaves its reference owed.
  lemma RemoveOwes(t: Table, objs: Objects, n: Id)
    requires n in t
    ensures t[n].obj == None && Exact(t, objs) ==> Exact(t - {n}, objs)
    ensures t[n].obj == None && Safe(t, objs) ==> Safe(t - {n}, objs)
    ensures t[n].obj.Some? && Exact(t, objs) ==> ExactOwing(t - {n}, objs, t[n].obj.value)
    ensures t[n].obj.Some? && Safe(t, objs) ==> SafeOwing(t - {n}, objs, t[n].obj.value)
  {
    forall p { RefsRemove(t, n, p); }
  }

  lemma UpdateKeepsCounts(t: Table, t': Table, objs: Objects)
    requires t.Keys == t'.Keys && forall i :: i in t ==> t[i].obj == t'[i].obj
    ensures Exact(t, objs) ==> Exact(t', objs)
    ensures Safe(t, objs) ==> Safe(t', objs)
  {
    forall p { RefsSameObjects(t, t', p); }
  }

  // Inserting the row before counting it, as a copy does, is safe exactly when the
  // object's count happens to be too high already.
  lemma InsertFirstIsSafeIff(t: Table, objs: Objects, n: Id, r: Row, o: Id)
    requires Safe(t, objs) && n !in t && r.obj == Some(o) && o in objs
    ensures Safe(t[n := r], objs) <==> objs[o].refCount > Refs(t, o)
  {
    forall p { RefsInsert(t, n, r, p); }
  }

  lemma InsertFirstBreaks(t: Table, objs: Objects, n: Id, r: Row, o: Id)
    requires Exact(t, objs) && n !in t && r.obj == Some(o) && o in objs
    ensures !Safe(t[n := r], objs) && !Exact(t[n := r], objs)
  {
    RefsInsert(t, n, r, o);
  }
}
