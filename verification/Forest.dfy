// The user_file table as a forest: rows point at their parent row, folders hold
// rows, and every tree operation of the service walks the table through one of
// three views (all rows, live rows, live rows of one user).

module Forest {
  import opened Wrappers

  type Id = nat

  // A row of user_file. `stamp` stands for the created_at / updated_at columns.
  datatype Row = Row(
    user: Id, parent: Option<Id>, name: string, isDir: bool,
    obj: Option<Id>, size: int, deleted: bool, stamp: nat)

  type Table = map<Id, Row>

  // ---- Walking up ---------------------------------------------------------

  function ParentOf(t: Table, i: Id): Option<Id> {
    if i in t then t[i].parent else None
  }

  // The n-th ancestor of i.
  ghost function Up(t: Table, i: Id, n: nat): Option<Id> {
    if n == 0 then Some(i)
    else match Up(t, i, n - 1)
      case None => None
      case Some(x) => ParentOf(t, x)
  }

  // a is a proper ancestor of i.
  ghost predicate ProperlyUnder(t: Table, i: Id, a: Id) {
    exists n: nat :: n > 0 && Up(t, i, n) == Some(a)
  }

  ghost predicate Acyclic(t: Table) {
    forall i: Id, n: nat :: n > 0 ==> Up(t, i, n) != Some(i)
  }

  predicate ParentsExist(t: Table) {
    forall i :: i in t && t[i].parent.Some? ==> t[i].parent.value in t
  }

  lemma {:induction false} UpAdd(t: Table, i: Id, m: nat, n: nat)
    requires Up(t, i, m).Some?
    ensures Up(t, i, m + n) == Up(t, Up(t, i, m).value, n)
  {
    if n > 0 {
      UpAdd(t, i, m, n - 1);
      assert Up(t, i, m + n) ==
        match Up(t, i, m + n - 1) case None => None case Some(x) => ParentOf(t, x);
    }
  }

  // The walk is cut off for good once it falls off a root.
  lemma {:induction false} UpPrefix(t: Table, i: Id, m: nat, n: nat)
    requires m <= n && Up(t, i, n).Some?
    ensures Up(t, i, m).Some?
  {
    if m < n { UpPrefix(t, i, m, n - 1); }
  }

  lemma {:induction false} UpAgree(t: Table, t': Table, i: Id, n: nat)
    requires forall k: nat :: k < n && Up(t, i, k).Some? ==>
      ParentOf(t, Up(t, i, k).value) == ParentOf(t', Up(t, i, k).value)
    ensures Up(t', i, n) == Up(t, i, n)
  {
    if n > 0 { UpAgree(t, t', i, n - 1); }
  }

  // The proper ancestors of i that are rows: what a parent walk has still to visit.
  ghost function Above(t: Table, i: Id): set<Id> {
    set a | a in t && ProperlyUnder(t, i, a)
  }

  // On an acyclic table the walk gets strictly closer to a root with every step.
  lemma AboveShrinks(t: Table, i: Id, p: Id)
    requires Acyclic(t) && ParentOf(t, i) == Some(p) && p in t
    ensures Above(t, p) < Above(t, i)
  {
    assert Up(t, i, 1) == Some(p) by { assert Up(t, i, 0) == Some(i); }
    forall a | a in Above(t, p) ensures a in Above(t, i) {
      var n: nat :| n > 0 && Up(t, p, n) == Some(a);
      UpAdd(t, i, 1, n);
    }
    assert p in Above(t, i);
    assert p !in Above(t, p);
  }

  // ---- Views and subtrees -------------------------------------------------

  datatype View = Everything | Live | LiveOf(user: Id)

  predicate Sees(v: View, r: Row) {
    match v
    case Everything => true
    case Live => !r.deleted
    case LiveOf(u) => !r.deleted && r.user == u
  }

  // The rows a query for the children of f returns under view v.
  function Kids(t: Table, v: View, f: Id): set<Id> {
    set x | x in t && Sees(v, t[x]) && t[x].parent == Some(f)
  }

  // SELECT without ORDER BY: the rows come in any order.
  method Fetch(ids: set<Id>) returns (found: seq<Id>)
    ensures forall i :: i in ids <==> i in found
    ensures |found| == |ids|
    ensures forall j, k :: 0 <= j < k < |found| ==> found[j] != found[k]
  {
    found := [];
    var todo := ids;
    while todo != {}
      invariant todo <= ids && |found| + |todo| == |ids|
      invariant forall i :: i in ids <==> i in found || i in todo
      invariant forall i :: i in found ==> i !in todo
      invariant forall j, k :: 0 <= j < k < |found| ==> found[j] != found[k]
      decreases todo
    {
      var i :| i in todo;
      found, todo := found + [i], todo - {i};
    }
  }

  // x is reached from f in n steps down, through folders, by rows that v sees.
  ghost predicate Path(t: Table, v: View, x: Id, f: Id, n: nat)
    decreases n
  {
    if n == 0 then x == f && f in t
    else
      && x in t && Sees(v, t[x]) && t[x].parent.Some?
      && t[x].parent.value in t && t[t[x].parent.value].isDir
      && Path(t, v, t[x].parent.value, f, n - 1)
  }

  // The subtree a recursive operation starting at f visits, f included.
  ghost function Sub(t: Table, v: View, f: Id): set<Id> {
    set x | x in t && exists n: nat :: Path(t, v, x, f, n)
  }

  // The union of the subtrees of several rows.
  ghost function SubAll(t: Table, v: View, fs: set<Id>): set<Id> {
    set x | x in t && exists f :: f in fs && x in Sub(t, v, f)
  }

  lemma SubIntro(t: Table, v: View, x: Id, f: Id, n: nat)
    requires Path(t, v, x, f, n)
    ensures x in Sub(t, v, f)
  {}

  lemma {:induction false} PathUp(t: Table, v: View, x: Id, f: Id, n: nat)
    requires Path(t, v, x, f, n)
    ensures Up(t, x, n) == Some(f)
    decreases n
  {
    if n > 0 {
      var p := t[x].parent.value;
      PathUp(t, v, p, f, n - 1);
      assert Up(t, x, 1) == Some(p) by { assert Up(t, x, 0) == Some(x); }
      UpAdd(t, x, 1, n - 1);
    }
  }

  lemma SubUnder(t: Table, v: View, x: Id, f: Id)
    requires x in Sub(t, v, f)
    ensures x == f || ProperlyUnder(t, x, f)
  {
    var n: nat :| Path(t, v, x, f, n);
    PathUp(t, v, x, f, n);
  }

  // A kid of a visited folder is visited.
  lemma SubKid(t: Table, v: View, x: Id, p: Id, f: Id)
    requires p in Sub(t, v, f) && t[p].isDir && x in Kids(t, v, p)
    ensures x in Sub(t, v, f)
  {
    var n: nat :| Path(t, v, p, f, n);
    assert Path(t, v, x, f, n + 1);
  }

  // The parent of a visited row other than the start is a visited folder.
  lemma SubParent(t: Table, v: View, x: Id, f: Id)
    requires x in Sub(t, v, f) && x != f
    ensures Sees(v, t[x]) && t[x].parent.Some?
    ensures t[x].parent.value in Sub(t, v, f) && t[t[x].parent.value].isDir
  {
    var n: nat :| Path(t, v, x, f, n);
    assert Path(t, v, t[x].parent.value, f, n - 1);
  }

  lemma {:induction false} PathTop(t: Table, v: View, x: Id, f: Id, n: nat) returns (c: Id)
    requires n > 0 && Path(t, v, x, f, n)
    ensures f in t && t[f].isDir && c in Kids(t, v, f) && Path(t, v, x, c, n - 1)
    decreases n
  {
    if n == 1 {
      c := x;
      assert Path(t, v, t[x].parent.value, f, 0);
    } else {
      c := PathTop(t, v, t[x].parent.value, f, n - 1);
    }
  }

  lemma {:induction false} PathExtend(t: Table, v: View, x: Id, c: Id, f: Id, n: nat)
    requires f in t && t[f].isDir && c in Kids(t, v, f) && Path(t, v, x, c, n)
    ensures Path(t, v, x, f, n + 1)
    decreases n
  {
    if n == 0 {
      assert Path(t, v, f, f, 0);
    } else {
      PathExtend(t, v, t[x].parent.value, c, f, n - 1);
    }
  }

  // A folder's subtree is the folder and its kids' subtrees; any other row is alone.
  lemma SubUnfold(t: Table, v: View, f: Id)
    requires f in t
    ensures Sub(t, v, f) == {f} + (if t[f].isDir then SubAll(t, v, Kids(t, v, f)) else {})
  {
    assert Path(t, v, f, f, 0);
    forall x | x in Sub(t, v, f) && x != f
      ensures t[f].isDir && x in SubAll(t, v, Kids(t, v, f))
    {
      var n: nat :| Path(t, v, x, f, n);
      var c := PathTop(t, v, x, f, n);
      SubIntro(t, v, x, c, n - 1);
    }
    if t[f].isDir {
      forall x | x in SubAll(t, v, Kids(t, v, f)) ensures x in Sub(t, v, f) {
        var c :| c in Kids(t, v, f) && x in Sub(t, v, c);
        var n: nat :| Path(t, v, x, c, n);
        PathExtend(t, v, x, c, f, n);
      }
    }
  }

  lemma NotBelowKid(t: Table, v: View, c: Id, f: Id)
    requires Acyclic(t) && c in Kids(t, v, f)
    ensures f !in Sub(t, v, c)
  {
    forall n: nat ensures !Path(t, v, f, c, n) {
      assert Up(t, f, n) == Some(c) ==> Up(t, f, n + 1) == Some(f);
      if Path(t, v, f, c, n) { PathUp(t, v, f, c, n); }
    }
  }

  lemma KidShrinks(t: Table, v: View, c: Id, f: Id)
    requires Acyclic(t) && f in t && t[f].isDir && c in Kids(t, v, f)
    ensures Sub(t, v, c) < Sub(t, v, f)
  {
    SubUnfold(t, v, f);
    NotBelowKid(t, v, c, f);
    forall x | x in Sub(t, v, c) ensures x in Sub(t, v, f) {
      assert x in SubAll(t, v, Kids(t, v, f));
    }
    assert f in Sub(t, v, f);
  }

  // Two rows whose walks reach different rows of the same height would close a cycle.
  lemma SiblingsDisjoint(t: Table, v: View, c: Id, d: Id, f: Id)
    requires Acyclic(t) && c in Kids(t, v, f) && d in Kids(t, v, f) && c != d
    ensures Sub(t, v, c) !! Sub(t, v, d)
  {
    forall x | x in Sub(t, v, c) && x in Sub(t, v, d) ensures false {
      var m: nat :| Path(t, v, x, c, m);
      var n: nat :| Path(t, v, x, d, n);
      PathUp(t, v, x, c, m);
      PathUp(t, v, x, d, n);
      if m < n { ForkCycles(t, x, c, m, d, n, f); } else if n < m { ForkCycles(t, x, d, n, c, m, f); }
    }
  }

  lemma ForkCycles(t: Table, x: Id, c: Id, m: nat, d: Id, n: nat, f: Id)
    requires m < n && Up(t, x, m) == Some(c) && Up(t, x, n) == Some(d)
    requires ParentOf(t, c) == Some(f) && ParentOf(t, d) == Some(f)
    ensures !Acyclic(t)
  {
    assert Up(t, x, m + 1) == Some(f);
    UpAdd(t, x, m + 1, n - m);
    assert Up(t, x, n + 1) == Some(f);
    assert Up(t, f, n - m) == Some(f);
  }

  // Operations outside a subtree do not change it.
  lemma SubSame(t: Table, t': Table, v: View, f: Id)
    requires f in t
    requires forall x :: x in Sub(t, v, f) ==> x in t' && t'[x] == t[x] && Kids(t', v, x) == Kids(t, v, x)
    ensures Sub(t', v, f) == Sub(t, v, f)
  {
    assert Path(t, v, f, f, 0);
    forall x | x in Sub(t, v, f) ensures x in Sub(t', v, f) {
      var n: nat :| Path(t, v, x, f, n);
      PathKept(t, t', v, x, f, n);
    }
    forall x | x in Sub(t', v, f) ensures x in Sub(t, v, f) {
      var n: nat :| Path(t', v, x, f, n);
      PathReflected(t, t', v, x, f, n);
    }
  }

  lemma {:induction false} PathKept(t: Table, t': Table, v: View, x: Id, f: Id, n: nat)
    requires forall y :: y in Sub(t, v, f) ==> y in t' && t'[y] == t[y]
    requires Path(t, v, x, f, n)
    ensures Path(t', v, x, f, n)
    decreases n
  {
    SubIntro(t, v, x, f, n);
    if n > 0 {
      SubIntro(t, v, t[x].parent.value, f, n - 1);
      PathKept(t, t', v, t[x].parent.value, f, n - 1);
    }
  }

  lemma {:induction false} PathReflected(t: Table, t': Table, v: View, x: Id, f: Id, n: nat)
    requires f in t
    requires forall y :: y in Sub(t, v, f) ==> y in t' && t'[y] == t[y] && Kids(t', v, y) == Kids(t, v, y)
    requires Path(t', v, x, f, n)
    ensures x in Sub(t, v, f)
    decreases n
  {
    if n == 0 {
      assert Path(t, v, f, f, 0);
    } else {
      var p := t'[x].parent.value;
      PathReflected(t, t', v, p, f, n - 1);
      assert x in Kids(t', v, p);
      SubKid(t, v, x, p, f);
    }
  }

  // ---- Keeping the forest -------------------------------------------------

  // Same parents, same walks.
  lemma SameParentsAcyclic(t: Table, t': Table)
    requires Acyclic(t) && forall i :: ParentOf(t, i) == ParentOf(t', i)
    ensures Acyclic(t')
  {
    forall i: Id, n: nat | n > 0 ensures Up(t', i, n) != Some(i) {
      UpAgree(t, t', i, n);
    }
  }

  // A subtable has fewer walks.
  lemma SubtableAcyclic(t: Table, t': Table)
    requires Acyclic(t) && forall i :: i in t' ==> i in t && t'[i] == t[i]
    ensures Acyclic(t')
  {
    forall i: Id, n: nat | n > 0 ensures Up(t', i, n) != Some(i) {
      if Up(t', i, n) == Some(i) {
        forall k: nat | k < n && Up(t', i, k).Some?
          ensures ParentOf(t', Up(t', i, k).value) == ParentOf(t, Up(t', i, k).value)
        {
          UpPrefix(t', i, k + 1, n);
        }
        UpAgree(t', t, i, n);
      }
    }
  }

  // A new row under an existing one closes no cycle.
  lemma InsertAcyclic(t: Table, n: Id, r: Row)
    requires Acyclic(t) && ParentsExist(t) && n !in t
    requires r.parent.Some? ==> r.parent.value in t
    ensures Acyclic(t[n := r])
  {
    var t' := t[n := r];
    forall i: Id, k: nat | k > 0 ensures Up(t', i, k) != Some(i) {
      if i in t {
        WalkInside(t, t', i, k);
      } else {
        assert Up(t', i, 0) == Some(i);
        if Up(t', i, 1).Some? {
          var p := Up(t', i, 1).value;
          UpAdd(t', i, 1, k - 1);
          WalkInside(t, t', p, k - 1);
        } else if Up(t', i, k).Some? {
          UpPrefix(t', i, 1, k);
        }
      }
    }
  }

  lemma {:induction false} WalkInside(t: Table, t': Table, i: Id, k: nat)
    requires ParentsExist(t) && i in t && forall x :: x in t ==> x in t' && t'[x].parent == t[x].parent
    ensures Up(t', i, k) == Up(t, i, k)
    ensures Up(t, i, k).Some? ==> Up(t, i, k).value in t
  {
    if k > 0 { WalkInside(t, t', i, k - 1); }
  }

  // ---- Moving rows under a folder -----------------------------------------

  ghost predicate Moved(t: Table, t': Table, moved: set<Id>, target: Option<Id>) {
    forall i :: ParentOf(t', i) == if i in moved then target else ParentOf(t, i)
  }

  // None of the moved rows is the target or one of its ancestors.
  ghost predicate Clear(t: Table, moved: set<Id>, target: Option<Id>) {
    target.Some? ==> forall m, n: nat :: m in moved ==> Up(t, target.value, n) != Some(m)
  }

  // A batch move keeps the forest exactly when no moved row is on the target's walk.
  lemma MoveAcyclicIff(t: Table, t': Table, moved: set<Id>, target: Option<Id>)
    requires Acyclic(t) && Moved(t, t', moved, target)
    ensures Acyclic(t') <==> Clear(t, moved, target)
  {
    if Clear(t, moved, target) {
      forall i: Id, n: nat | n > 0 ensures Up(t', i, n) != Some(i) {
        NoCycleAfterMove(t, t', moved, target, i, n);
      }
    } else {
      var m, n: nat :| m in moved && Up(t, target.value, n) == Some(m);
      var k := FirstMoved(t, moved, target.value, n);
      UpAgree(t, t', target.value, k);
      UpAdd(t', target.value, k, 1);
      var x := Up(t', target.value, k).value;
      assert Up(t', x, 0) == Some(x);
      assert Up(t', target.value, k + 1) == Some(target.value);
    }
  }

  // The first moved row on a walk that meets one.
  lemma {:induction false} FirstMoved(t: Table, moved: set<Id>, i: Id, n: nat) returns (k: nat)
    requires Up(t, i, n).Some? && Up(t, i, n).value in moved
    ensures k <= n && Up(t, i, k).Some? && Up(t, i, k).value in moved
    ensures forall j: nat :: j < k && Up(t, i, j).Some? ==> Up(t, i, j).value !in moved
  {
    k := 0;
    while !(Up(t, i, k).Some? && Up(t, i, k).value in moved)
      invariant k <= n
      invariant forall j: nat :: j < k && Up(t, i, j).Some? ==> Up(t, i, j).value !in moved
      decreases n - k
    {
      k := k + 1;
    }
  }

  lemma NoCycleAfterMove(t: Table, t': Table, moved: set<Id>, target: Option<Id>, i: Id, n: nat)
    requires Acyclic(t) && Moved(t, t', moved, target) && Clear(t, moved, target)
    requires n > 0
    ensures Up(t', i, n) != Some(i)
  {
    if Up(t', i, n) != Some(i) {
    } else if k: nat :| k < n && Up(t', i, k).Some? && Up(t', i, k).value in moved {
      var m := Up(t', i, k).value;
      UpPrefix(t', i, k + 1, n);
      assert Up(t', i, k + 1) == target;
      // The cycle comes back to m from the target, along walks the move left alone.
      UpAdd(t', i, n, k);
      UpAdd(t', i, k + 1, n - 1);
      assert Up(t', target.value, n - 1) == Some(m);
      forall j: nat | j < n - 1 && Up(t, target.value, j).Some?
        ensures ParentOf(t, Up(t, target.value, j).value) == ParentOf(t', Up(t, target.value, j).value)
      {}
      UpAgree(t, t', target.value, n - 1);
    } else {
      UpAgree(t', t, i, n);
    }
  }
}
