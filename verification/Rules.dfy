// The rules by which tree operations are refused, in terms of the columns of the rows.

module Rules {
  import opened Wrappers
  import opened Forest
  import opened References
  import opened Removal
  import opened Copies
  import opened Netdisk

  lemma {:induction false} RepeatsShrink(ids: seq<Id>)
    ensures |Elements(ids)| == |ids| <==> forall j, k :: 0 <= j < k < |ids| ==> ids[j] != ids[k]
  {
    if ids != [] {
      var most, last := ids[..|ids| - 1], ids[|ids| - 1];
      RepeatsShrink(most);
      ElementsSize(most);
      assert Elements(ids) == Elements(most) + {last};
      assert forall j :: 0 <= j < |most| ==> most[j] == ids[j];
      if last in most {
        var j :| 0 <= j < |most| && most[j] == last;
        assert ids[j] == ids[|ids| - 1];
      }
    }
  }

  // All listed rows are there, live and the user's own, and none is listed twice.
  lemma SelectedRule(t: Table, user: Id, ids: seq<Id>)
    ensures |Selected(t, user, ids)| == |ids| <==>
      && (forall f :: f in ids ==> f in t && t[f].user == user && !t[f].deleted)
      && forall j, k :: 0 <= j < k < |ids| ==> ids[j] != ids[k]
  {
    RepeatsShrink(ids);
    var s := Selected(t, user, ids);
    ElementsSize(ids);
    if |s| == |ids| {
      SelectedAll(t, user, ids);
      assert s == Elements(ids);
    } else if forall f :: f in ids ==> f in t && t[f].user == user && !t[f].deleted {
      assert s == Elements(ids);
    }
  }

  // A move is carried out exactly when all listed rows are the user's own live rows, listed
  // once; the target, unless it is the root, is a live folder of the user, none of the moved
  // rows and below none of them as far as the guard sees; no live row of the user in the target
  // has the name of a moved one; and in a folder the moved ones have different names.
  lemma MoveRule(t: Table, user: Id, ids: seq<Id>, target: Option<Id>)
    ensures MoveAllowed(t, user, ids, target) <==>
      && (forall f :: f in ids ==> f in t && t[f].user == user && !t[f].deleted)
      && (forall j, k :: 0 <= j < k < |ids| ==> ids[j] != ids[k])
      && (target.Some? && target.value != 0 ==>
           && target.value in t && t[target.value].isDir && t[target.value].user == user && !t[target.value].deleted
           && forall f :: f in ids ==> f != target.value && !WalkFinds(t, user, target.value, f))
      && (target == Some(0) ==> ids == [])
      && (forall f, x :: f in ids && x in t && t[x].user == user && !t[x].deleted && t[x].name == t[f].name ==>
           t[x].parent != if target == Some(0) then None else target)
      && (target.Some? ==> forall f, g :: f in ids && g in ids && f != g ==> t[f].name != t[g].name)
  {
    hide WalkFinds;
    var s := Selected(t, user, ids);
    SelectedRule(t, user, ids);
    if |s| == |ids| {
      SelectedAll(t, user, ids);
      assert s == {} <==> ids == [];
      forall f | f in ids
        ensures NameInUse(t, user, target, t[f].name) <==>
          exists x :: x in t && t[x].user == user && !t[x].deleted && t[x].name == t[f].name &&
            t[x].parent == if target == Some(0) then None else target
      {}
    }
  }

  // A folder is made exactly when the parent, unless there is none, is a live folder of the
  // user, and no live row of the user in it has the name; at the root no live folder has.
  lemma CreateRule(t: Table, user: Id, parent: Option<Id>, name: string)
    requires 0 !in t
    ensures
      (TargetOk(t, user, parent) && !FolderNameInUse(t, user, parent, name) && PlaceFree(t, user, parent, name)) <==>
      match parent
      case None => forall x :: x in t && t[x].user == user && !t[x].deleted && t[x].isDir && t[x].name == name ==>
        t[x].parent.Some?
      case Some(p) =>
        && p in t && t[p].isDir && t[p].user == user && !t[p].deleted
        && forall x :: x in t && t[x].user == user && !t[x].deleted && t[x].name == name ==> t[x].parent != Some(p)
  {}

  // A copy is carried out exactly under the same rules for rows, target and names, if moreover
  // every live row below a source's folders is the user's, and the target is not given as 0.
  lemma CopyRule(t: Table, user: Id, ids: seq<Id>, target: Option<Id>)
    ensures CopyAllowed(t, t, user, ids, target) <==>
      && (forall f :: f in ids ==> f in t && t[f].user == user && !t[f].deleted)
      && (forall j, k :: 0 <= j < k < |ids| ==> ids[j] != ids[k])
      && (target.Some? && target.value != 0 ==>
           target.value in t && t[target.value].isDir && t[target.value].user == user && !t[target.value].deleted)
      && (target == Some(0) ==> ids == [])
      && (forall f, x :: f in ids && x in t && t[x].user == user && !t[x].deleted && t[x].name == t[f].name ==>
           t[x].parent != if target == Some(0) then None else target)
      && (forall f, g :: f in ids && g in ids && f != g ==> t[f].name != t[g].name)
      && (forall f, x, y ::
           f in ids && x in Sub(t, LiveOf(user), f) && x in t && t[x].isDir &&
           y in t && t[y].parent == Some(x) && !t[y].deleted ==>
             t[y].user == user)
  {
    hide Sub;
    var s := Selected(t, user, ids);
    SelectedRule(t, user, ids);
    if |s| == |ids| {
      SelectedAll(t, user, ids);
      assert s == {} <==> ids == [];
      forall f | f in ids
        ensures NoStrangers(t, user, f) <==> forall x, y ::
          x in Sub(t, LiveOf(user), f) && x in t && t[x].isDir &&
          y in t && t[y].parent == Some(x) && !t[y].deleted ==>
            t[y].user == user
      {
        StrangersRule(t, user, f);
      }
    }
  }

  lemma StrangersRule(t: Table, user: Id, f: Id)
    ensures NoStrangers(t, user, f) <==> forall x, y ::
      x in Sub(t, LiveOf(user), f) && x in t && t[x].isDir &&
      y in t && t[y].parent == Some(x) && !t[y].deleted ==>
        t[y].user == user
  {
    assert forall x :: x in Sub(t, LiveOf(user), f) ==> x in t;
    hide Sub;
    if NoStrangers(t, user, f) {
      forall x, y |
        && x in Sub(t, LiveOf(user), f) && x in t && t[x].isDir
        && y in t && t[y].parent == Some(x) && !t[y].deleted
        ensures t[y].user == user
      {
        assert y in Kids(t, Live, x);
        assert y in Kids(t, LiveOf(user), x);
      }
    } else {
      var x :| x in Sub(t, LiveOf(user), f) && t[x].isDir && Kids(t, Live, x) != Kids(t, LiveOf(user), x);
      var y :| y in Kids(t, Live, x) && y !in Kids(t, LiveOf(user), x);
    }
  }

  // Marking a row, or renaming it, is refused exactly when a row in the same folder would then
  // have the same user, name and mark; at the root it never is.
  lemma MarkRule(t: Table, i: Id, name: string, deleted: bool)
    requires i in t
    ensures Replaceable(t, i, t[i].(name := name, deleted := deleted)) <==> forall j ::
      t[i].parent.Some? && j in t && j != i &&
      t[j].user == t[i].user && t[j].parent == t[i].parent && t[j].name == name ==>
        t[j].deleted != deleted
  {}

  // Recycling a batch is refused exactly when a row of the same user, folder and name as one of
  // them is in the recycle bin already.
  lemma BatchRule(t: Table, user: Id, ids: seq<Id>, stamp: nat)
    requires UniqueNames(t)
    ensures UniqueNames(Recycled(t, Selected(t, user, ids), stamp)) <==>
      forall i, j ::
        i in ids && i in t && t[i].user == user && !t[i].deleted && t[i].parent.Some? && j in t && t[j].deleted ==>
        !(t[j].user == user && t[j].parent == t[i].parent && t[j].name == t[i].name)
  {
    var s := Selected(t, user, ids);
    var t' := Recycled(t, s, stamp);
    if UniqueNames(t') {
      forall i, j | i in s && t[i].parent.Some? && j in t && t[j].deleted
        ensures !(t[j].user == user && t[j].parent == t[i].parent && t[j].name == t[i].name)
      {
        assert !SameName(t'[i], t'[j]);
      }
    }
    forall i, j | i in t' && j in t' && i != j && t'[i].parent.Some? && SameName(t'[i], t'[j])
      ensures (i in s && j !in s && t[j].deleted) || (j in s && i !in s && t[i].deleted)
    {
      assert !SameName(t[i], t[j]);
    }
  }

  // A row is inserted exactly when its folder and object exist and no row of the same user,
  // folder, name and mark is there; at the root names may repeat.
  lemma InsertRule(t: Table, objs: Objects, r: Row)
    ensures Insertable(t, objs, r) <==>
      && (r.obj.Some? ==> r.obj.value in objs)
      && (r.parent.Some? ==>
           && r.parent.value in t
           && forall i :: i in t && t[i].user == r.user && t[i].parent == r.parent && t[i].name == r.name ==>
                t[i].deleted != r.deleted)
  {}
}
