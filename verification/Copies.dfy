// Deep copies: what a copied tree looks like, and how copies of children and a new
// folder row make a copy of a folder.

module Copies {
  import opened Wrappers
  import opened Forest
  import opened References

  // b carries everything of a but its place in the tree.
  ghost predicate SameLabel(a: Row, b: Row) {
    && b.user == a.user && b.name == a.name && b.isDir == a.isDir
    && b.obj == a.obj && b.size == a.size && !b.deleted
  }

  ghost predicate Injective(c: map<Id, Id>) {
    forall x, y :: x in c && y in c && x != y ==> c[x] != c[y]
  }

  // c is an isomorphism from the user's live subtree of `src` at f onto new rows of `dst`:
  // one new row per old one, same labels, parents carried to parents, the root under target.
  ghost predicate IsCopy(src: Table, dst: Table, user: Id, f: Id, target: Option<Id>, c: map<Id, Id>) {
    && c.Keys == Sub(src, LiveOf(user), f) && f in c && Injective(c)
    && (forall s :: s in c ==> s in src && c[s] in dst && c[s] !in src && SameLabel(src[s], dst[c[s]]))
    && dst[c[f]].parent == target
    && (forall s :: s in c && s != f ==>
         && src[s].parent.Some? && src[s].parent.value in c
         && dst[c[s]].parent == Some(c[src[s].parent.value]))
  }

  // All ids the copies have created.
  ghost function Fresh(copies: seq<map<Id, Id>>): set<Id> {
    if copies == [] then {} else Fresh(copies[..|copies| - 1]) + copies[|copies| - 1].Values
  }

  lemma CopyMap(src: Table, dst: Table, user: Id, f: Id, target: Option<Id>, c: map<Id, Id>)
    requires IsCopy(src, dst, user, f, target, c)
    ensures c.Keys == Sub(src, LiveOf(user), f) && f in c && Injective(c) && dst[c[f]].parent == target
  {}

  lemma CopyAt(src: Table, dst: Table, user: Id, f: Id, target: Option<Id>, c: map<Id, Id>, s: Id)
    requires IsCopy(src, dst, user, f, target, c) && s in c
    ensures s in src && c[s] in dst && c[s] !in src && SameLabel(src[s], dst[c[s]])
    ensures s == f ==> dst[c[s]].parent == target
    ensures s != f ==>
      && src[s].parent.Some? && src[s].parent.value in c && dst[c[s]].parent == Some(c[src[s].parent.value])
  {}

  // One copy per file, no two sharing a row.
  ghost predicate AllCopies(src: Table, dst: Table, user: Id, files: seq<Id>, target: Option<Id>,
    copies: seq<map<Id, Id>>) {
    |copies| == |files| &&
    (files != [] ==>
      var n := |files| - 1;
      && AllCopies(src, dst, user, files[..n], target, copies[..n])
      && IsCopy(src, dst, user, files[n], target, copies[n])
      && copies[n].Values !! Fresh(copies[..n]))
  }

  // After copying `files` under target, the table holds the old rows and the copies.
  ghost predicate CopyDone(base: Table, t0: Table, t: Table, user: Id, files: seq<Id>, target: Option<Id>,
                           copies: seq<map<Id, Id>>, lo: Id, hi: Id) {
    && |copies| == |files| && AllCopies(base, t, user, files, target, copies)
    && lo <= hi && (forall x :: x in Fresh(copies) ==> lo <= x < hi)
    && (forall x :: x in t0 ==> x in t && t[x] == t0[x])
    && t.Keys == t0.Keys + Fresh(copies)
  }

  lemma {:induction false} EachCopy(src: Table, dst: Table, user: Id, files: seq<Id>, target: Option<Id>,
                                    copies: seq<map<Id, Id>>, k: nat)
    requires AllCopies(src, dst, user, files, target, copies) && k < |files|
    ensures IsCopy(src, dst, user, files[k], target, copies[k])
    ensures copies[k].Values <= Fresh(copies)
    ensures forall j :: 0 <= j < k ==> copies[j].Values !! copies[k].Values
    decreases |files|
  {
    hide IsCopy;
    var n := |files| - 1;
    if k < n {
      EachCopy(src, dst, user, files[..n], target, copies[..n], k);
      assert forall j :: 0 <= j <= k ==> copies[..n][j] == copies[j];
      assert files[..n][k] == files[k];
    } else {
      forall j | 0 <= j < k ensures copies[j].Values !! copies[k].Values {
        EachCopy(src, dst, user, files[..n], target, copies[..n], j);
        assert copies[..n][j] == copies[j];
      }
    }
  }

  lemma {:induction false} FreshAt(copies: seq<map<Id, Id>>, x: Id) returns (k: nat, s: Id)
    requires x in Fresh(copies)
    ensures k < |copies| && s in copies[k] && copies[k][s] == x
  {
    var n := |copies| - 1;
    if x in copies[n].Values {
      k := n;
      s :| s in copies[n] && copies[n][s] == x;
    } else {
      k, s := FreshAt(copies[..n], x);
    }
  }

  lemma {:induction false} CopiesKept(src: Table, dst: Table, dst': Table, user: Id, files: seq<Id>, target: Option<Id>,
                                      copies: seq<map<Id, Id>>)
    requires AllCopies(src, dst, user, files, target, copies)
    requires forall x :: x in dst ==> x in dst' && dst'[x] == dst[x]
    ensures AllCopies(src, dst', user, files, target, copies)
    decreases |files|
  {
    if files != [] {
      var n := |files| - 1;
      CopiesKept(src, dst, dst', user, files[..n], target, copies[..n]);
    }
  }

  // Everything the walk over these sources can visit.
  ghost function Zone(t: Table, user: Id, fs: set<Id>): set<Id> {
    SubAll(t, LiveOf(user), fs)
  }

  // t extends base, and no added row hangs below a row of the zone.
  ghost predicate Quiet(base: Table, t: Table, zone: set<Id>) {
    && (forall x :: x in base ==> x in t && t[x] == base[x])
    && (forall x :: x in t && x !in base && t[x].parent.Some? ==> t[x].parent.value !in zone)
  }

  lemma QuietKids(base: Table, t: Table, zone: set<Id>, v: View, x: Id)
    requires Quiet(base, t, zone) && x in zone
    ensures Kids(t, v, x) == Kids(base, v, x)
  {}

  // No row of another user lies directly below a visited folder.
  ghost predicate NoStrangers(t: Table, user: Id, f: Id) {
    forall x :: x in Sub(t, LiveOf(user), f) && t[x].isDir ==> Kids(t, Live, x) == Kids(t, LiveOf(user), x)
  }

  lemma NoStrangersUnfold(t: Table, user: Id, f: Id)
    requires f in t
    ensures !t[f].isDir ==> NoStrangers(t, user, f)
    ensures t[f].isDir ==> (NoStrangers(t, user, f) <==>
      && Kids(t, Live, f) == Kids(t, LiveOf(user), f)
      && forall c :: c in Kids(t, LiveOf(user), f) ==> NoStrangers(t, user, c))
  {
    SubUnfold(t, LiveOf(user), f);
    if t[f].isDir && NoStrangers(t, user, f) {
      forall c | c in Kids(t, LiveOf(user), f) ensures NoStrangers(t, user, c) {
        assert Sub(t, LiveOf(user), c) <= SubAll(t, LiveOf(user), Kids(t, LiveOf(user), f));
      }
    }
  }

  lemma NoKidsNoStrangers(t: Table, user: Id, f: Id)
    requires f in t && t[f].isDir && Kids(t, Live, f) == {}
    ensures Kids(t, LiveOf(user), f) == {} && NoStrangers(t, user, f)
  {
    assert Kids(t, LiveOf(user), f) <= Kids(t, Live, f);
    NoStrangersUnfold(t, user, f);
  }

  // Without strangers the user's subtree is the whole live subtree.
  lemma NoStrangersSub(t: Table, user: Id, f: Id)
    requires NoStrangers(t, user, f) && f in t
    ensures Sub(t, LiveOf(user), f) == Sub(t, Live, f)
  {
    forall x, n: nat | Path(t, LiveOf(user), x, f, n) ensures x in Sub(t, Live, f) {
      OwnPathIsLive(t, user, x, f, n);
    }
    forall x, n: nat | Path(t, Live, x, f, n) ensures x in Sub(t, LiveOf(user), f) {
      LivePathIsOwn(t, user, x, f, n);
    }
  }

  lemma {:induction false} OwnPathIsLive(t: Table, user: Id, x: Id, f: Id, n: nat)
    requires Path(t, LiveOf(user), x, f, n)
    ensures Path(t, Live, x, f, n)
    decreases n
  {
    if n > 0 { OwnPathIsLive(t, user, t[x].parent.value, f, n - 1); }
  }

  lemma {:induction false} LivePathIsOwn(t: Table, user: Id, x: Id, f: Id, n: nat)
    requires NoStrangers(t, user, f) && f in t && Path(t, Live, x, f, n)
    ensures x in Sub(t, LiveOf(user), f)
    decreases n
  {
    if n == 0 {
      assert Path(t, LiveOf(user), f, f, 0);
    } else {
      var p := t[x].parent.value;
      LivePathIsOwn(t, user, p, f, n - 1);
      assert x in Kids(t, Live, p);
      SubKid(t, LiveOf(user), x, p, f);
    }
  }

  // ---- Putting copies together --------------------------------------------

  ghost function Join(copies: seq<map<Id, Id>>): map<Id, Id> {
    if copies == [] then map[] else Join(copies[..|copies| - 1]) + copies[|copies| - 1]
  }

  lemma {:induction false} JoinAt(copies: seq<map<Id, Id>>, k: nat, s: Id)
    requires forall i, j :: 0 <= i < j < |copies| ==> copies[i].Keys !! copies[j].Keys
    requires k < |copies| && s in copies[k]
    ensures s in Join(copies) && Join(copies)[s] == copies[k][s]
  {
    var n := |copies| - 1;
    if k < n {
      var init := copies[..n];
      forall i, j | 0 <= i < j < |init| ensures init[i].Keys !! init[j].Keys {
        assert init[i] == copies[i] && init[j] == copies[j];
      }
      JoinAt(init, k, s);
      assert copies[k].Keys !! copies[n].Keys;
    }
  }

  lemma {:induction false} JoinFrom(copies: seq<map<Id, Id>>, s: Id) returns (k: nat)
    requires s in Join(copies)
    ensures k < |copies| && s in copies[k] && Join(copies)[s] == copies[k][s]
  {
    var n := |copies| - 1;
    if s in copies[n] { k := n; } else { k := JoinFrom(copies[..n], s); }
  }

  // The children's copies, as the folder's own copy sees them.
  ghost predicate ChildCopies(base: Table, t: Table, user: Id, f: Id, n: Id, ch: seq<Id>, copies: seq<map<Id, Id>>) {
    && |copies| == |ch|
    && (forall x :: x in ch <==> x in Kids(base, LiveOf(user), f))
    && (forall i, j :: 0 <= i < j < |ch| ==> ch[i] != ch[j])
    && (forall k :: 0 <= k < |ch| ==> IsCopy(base, t, user, ch[k], Some(n), copies[k]))
    && (forall i, j :: 0 <= i < j < |ch| ==> copies[i].Keys !! copies[j].Keys && copies[i].Values !! copies[j].Values)
    && (forall k :: 0 <= k < |ch| ==> f !in copies[k] && n !in copies[k].Values)
  }

  lemma JoinKeys(base: Table, t: Table, user: Id, f: Id, n: Id, ch: seq<Id>, copies: seq<map<Id, Id>>)
    requires f in base && base[f].isDir && ChildCopies(base, t, user, f, n, ch, copies)
    ensures Join(copies).Keys + {f} == Sub(base, LiveOf(user), f) && f !in Join(copies)
  {
    hide IsCopy, Sub;
    var v := LiveOf(user);
    SubUnfold(base, v, f);
    forall s | s in Join(copies) ensures s in SubAll(base, v, Kids(base, v, f)) && s != f {
      var k := JoinFrom(copies, s);
      CopyMap(base, t, user, ch[k], Some(n), copies[k]);
      CopyAt(base, t, user, ch[k], Some(n), copies[k], s);
      assert ch[k] in ch;
    }
    forall s | s in SubAll(base, v, Kids(base, v, f)) ensures s in Join(copies) {
      var d :| d in Kids(base, v, f) && s in Sub(base, v, d);
      assert d in ch;
      var k :| 0 <= k < |ch| && ch[k] == d;
      CopyMap(base, t, user, ch[k], Some(n), copies[k]);
      JoinAt(copies, k, s);
    }
  }

  // Where the joined copies put a row and its parent.
  lemma JoinRow(base: Table, t: Table, user: Id, f: Id, n: Id, ch: seq<Id>, copies: seq<map<Id, Id>>, s: Id)
    requires f in base && base[f].isDir && ChildCopies(base, t, user, f, n, ch, copies) && s in Join(copies)
    ensures var c := Join(copies)[f := n];
      && s != f && s in base && c[s] in t && c[s] !in base && SameLabel(base[s], t[c[s]]) && c[s] != n
      && base[s].parent.Some? && base[s].parent.value in c && t[c[s]].parent == Some(c[base[s].parent.value])
  {
    hide IsCopy;
    JoinKeys(base, t, user, f, n, ch, copies);
    var k := JoinFrom(copies, s);
    CopyAt(base, t, user, ch[k], Some(n), copies[k], s);
    assert ch[k] in ch && copies[k][s] in copies[k].Values;
    if s != ch[k] {
      var p := base[s].parent.value;
      JoinAt(copies, k, p);
      assert p != f;
    }
  }

  lemma JoinInjective(base: Table, t: Table, user: Id, f: Id, n: Id, ch: seq<Id>, copies: seq<map<Id, Id>>,
    x: Id, y: Id)
    requires ChildCopies(base, t, user, f, n, ch, copies) && x in Join(copies) && y in Join(copies) && x != y
    ensures Join(copies)[x] != Join(copies)[y]
  {
    hide IsCopy;
    var i := JoinFrom(copies, x);
    var j := JoinFrom(copies, y);
    assert copies[i][x] in copies[i].Values && copies[j][y] in copies[j].Values;
    CopyMap(base, t, user, ch[i], Some(n), copies[i]);
    if i < j { assert copies[i].Values !! copies[j].Values; }
    if j < i { assert copies[j].Values !! copies[i].Values; }
  }

  // A new row n for folder f, and copies of all its children below n, copy the folder.
  lemma Assemble(base: Table, t: Table, user: Id, f: Id, n: Id, target: Option<Id>, ch: seq<Id>,
    copies: seq<map<Id, Id>>)
    requires f in base && base[f].isDir
    requires n in t && n !in base && SameLabel(base[f], t[n]) && t[n].parent == target
    requires ChildCopies(base, t, user, f, n, ch, copies)
    ensures IsCopy(base, t, user, f, target, Join(copies)[f := n]) && f !in Join(copies)
  {
    hide ChildCopies, Sub, SameLabel;
    var j := Join(copies);
    var c := j[f := n];
    JoinKeys(base, t, user, f, n, ch, copies);
    assert c.Keys == j.Keys + {f};
    forall s | s in j
      ensures s != f && s in base && c[s] in t && c[s] !in base && SameLabel(base[s], t[c[s]]) && c[s] != n
      ensures base[s].parent.Some? && base[s].parent.value in c && t[c[s]].parent == Some(c[base[s].parent.value])
    {
      JoinRow(base, t, user, f, n, ch, copies, s);
    }
    forall x, y | x in c && y in c && x != y ensures c[x] != c[y] {
      if x != f && y != f { JoinInjective(base, t, user, f, n, ch, copies, x, y); }
    }
  }

  lemma {:induction false} JoinValues(copies: seq<map<Id, Id>>)
    requires forall i, j :: 0 <= i < j < |copies| ==> copies[i].Keys !! copies[j].Keys
    ensures Join(copies).Values == Fresh(copies)
  {
    if copies != [] {
      var n := |copies| - 1;
      var init, last := copies[..n], copies[n];
      forall i, j | 0 <= i < j < |init| ensures init[i].Keys !! init[j].Keys {
        assert init[i] == copies[i] && init[j] == copies[j];
      }
      JoinValues(init);
      forall x | x in Fresh(copies) ensures x in Join(copies).Values {
        if x in last.Values {
          var s :| s in last && last[s] == x;
          assert Join(copies)[s] == x;
        } else {
          var s :| s in Join(init) && Join(init)[s] == x;
          var k := JoinFrom(init, s);
          assert copies[k].Keys !! copies[n].Keys;
          assert Join(copies)[s] == x;
        }
      }
    }
  }

  // What a finished batch of children gives the folder above it.
  lemma ChildrenCopied(base: Table, t1: Table, t: Table, user: Id, f: Id, n: Id, ch: seq<Id>,
    copies: seq<map<Id, Id>>, hi: Id)
    requires Acyclic(base) && f in base
    requires forall x :: x in ch <==> x in Kids(base, LiveOf(user), f)
    requires forall i, j :: 0 <= i < j < |ch| ==> ch[i] != ch[j]
    requires CopyDone(base, t1, t, user, ch, Some(n), copies, n + 1, hi)
    ensures ChildCopies(base, t, user, f, n, ch, copies)
    ensures Join(copies).Values == Fresh(copies)
  {
    hide IsCopy;
    forall k | 0 <= k < |ch|
      ensures IsCopy(base, t, user, ch[k], Some(n), copies[k]) && f !in copies[k] && n !in copies[k].Values
    {
      EachCopy(base, t, user, ch, Some(n), copies, k);
      CopyMap(base, t, user, ch[k], Some(n), copies[k]);
      assert ch[k] in ch;
      NotBelowKid(base, LiveOf(user), ch[k], f);
    }
    forall i, j | 0 <= i < j < |ch|
      ensures copies[i].Keys !! copies[j].Keys && copies[i].Values !! copies[j].Values
    {
      EachCopy(base, t, user, ch, Some(n), copies, j);
      EachCopy(base, t, user, ch, Some(n), copies, i);
      CopyMap(base, t, user, ch[i], Some(n), copies[i]);
      CopyMap(base, t, user, ch[j], Some(n), copies[j]);
      assert ch[i] in ch && ch[j] in ch;
      SiblingsDisjoint(base, LiveOf(user), ch[i], ch[j], f);
    }
    JoinValues(copies);
  }

  // One more file copied.
  lemma Extend(base: Table, t0: Table, t1: Table, t: Table, user: Id, files: seq<Id>, i: nat, target: Option<Id>,
               copies: seq<map<Id, Id>>, c: map<Id, Id>, lo: Id, mid: Id, hi: Id)
    requires i < |files| && CopyDone(base, t0, t1, user, files[..i], target, copies, lo, mid)
    requires IsCopy(base, t, user, files[i], target, c) && lo <= mid <= hi && forall x :: x in c.Values ==>
      mid <= x < hi
    requires forall x :: x in t1 ==> x in t && t[x] == t1[x]
    requires t.Keys == t1.Keys + c.Values
    ensures CopyDone(base, t0, t, user, files[..i + 1], target, copies + [c], lo, hi)
  {
    hide IsCopy;
    var all, fs := copies + [c], files[..i + 1];
    assert all[..i] == copies && fs[..i] == files[..i] && fs[i] == files[i];
    CopiesKept(base, t1, t, user, files[..i], target, copies);
    assert Fresh(all) == Fresh(copies) + c.Values;
  }

  lemma EmptyCopy(base: Table, t: Table, user: Id, target: Option<Id>, lo: Id)
    ensures CopyDone(base, t, t, user, [], target, [], lo, lo)
  {}

  // A file is copied by one row.
  lemma SingleCopy(base: Table, t: Table, user: Id, f: Id, n: Id, target: Option<Id>)
    requires f in base && !base[f].isDir && n in t && n !in base && SameLabel(base[f], t[n]) && t[n].parent == target
    ensures IsCopy(base, t, user, f, target, map[f := n]) && (map[f := n]).Values == {n}
  {
    SubUnfold(base, LiveOf(user), f);
  }

  lemma JoinedValues(copies: seq<map<Id, Id>>, f: Id, n: Id)
    requires f !in Join(copies)
    ensures (Join(copies)[f := n]).Values == Join(copies).Values + {n}
  {
    var j := Join(copies);
    var c := j[f := n];
    forall x | x in j.Values ensures x in c.Values {
      var s :| s in j && j[s] == x;
      assert c[s] == x;
    }
    assert c[f] == n;
  }

  // ---- Counting -----------------------------------------------------------

  // The places in the user's live subtree of f that point at object o.
  ghost function Places(t: Table, user: Id, f: Id, o: Id): set<Id> {
    set s | s in Sub(t, LiveOf(user), f) && t[s].obj == Some(o)
  }

  ghost function Occurrences(t: Table, user: Id, files: seq<Id>, o: Id): nat {
    if files == [] then 0
    else Occurrences(t, user, files[..|files| - 1], o) + |Places(t, user, files[|files| - 1], o)|
  }

  lemma {:induction false} ImageSize(c: map<Id, Id>, s: set<Id>)
    requires Injective(c) && s <= c.Keys
    ensures |set x | x in s :: c[x]| == |s|
    decreases s
  {
    if s != {} {
      var x :| x in s;
      ImageSize(c, s - {x});
      var img, less := set y | y in s :: c[y], set y | y in s - {x} :: c[y];
      assert img == less + {c[x]} && c[x] !in less;
    } else {
      assert (set x | x in s :: c[x]) == {};
    }
  }

  // The rows of `xs` that point at o.
  ghost function HoldersIn(t: Table, xs: set<Id>, o: Id): set<Id> {
    set x | x in xs && x in t && t[x].obj == Some(o)
  }

  lemma PlacesImage(base: Table, t: Table, user: Id, f: Id, target: Option<Id>, c: map<Id, Id>, o: Id)
    requires IsCopy(base, t, user, f, target, c)
    ensures |HoldersIn(t, c.Values, o)| == |Places(base, user, f, o)|
  {
    hide IsCopy, Sub;
    CopyMap(base, t, user, f, target, c);
    var places := Places(base, user, f, o);
    forall s | s in c ensures s in base && c[s] in t && base[s].obj == t[c[s]].obj {
      CopyAt(base, t, user, f, target, c, s);
    }
    ImageSize(c, places);
    var img := set s | s in places :: c[s];
    forall x | x in HoldersIn(t, c.Values, o) ensures x in img {
      var s :| s in c && c[s] == x;
      assert s in places;
    }
    assert HoldersIn(t, c.Values, o) == img;
  }

  lemma {:induction false} FreshOccurrences(base: Table, t: Table, user: Id, files: seq<Id>, target: Option<Id>,
                                            copies: seq<map<Id, Id>>, o: Id)
    requires AllCopies(base, t, user, files, target, copies)
    ensures |HoldersIn(t, Fresh(copies), o)| == Occurrences(base, user, files, o)
    decreases |files|
  {
    hide IsCopy, Places;
    if files == [] {
      assert HoldersIn(t, Fresh(copies), o) == {};
    } else {
      var n := |files| - 1;
      FreshOccurrences(base, t, user, files[..n], target, copies[..n], o);
      PlacesImage(base, t, user, files[n], target, copies[n], o);
      var a, b := HoldersIn(t, Fresh(copies[..n]), o), HoldersIn(t, copies[n].Values, o);
      assert HoldersIn(t, Fresh(copies), o) == a + b && a !! b;
    }
  }

  // The copies hold each object exactly as often as it occurs in the sources.
  lemma CopyOccurrences(base: Table, t0: Table, t: Table, user: Id, files: seq<Id>, target: Option<Id>,
                        copies: seq<map<Id, Id>>, lo: Id, hi: Id, o: Id)
    requires CopyDone(base, t0, t, user, files, target, copies, lo, hi) && forall x :: x in t0 ==> x < lo
    ensures Refs(t, o) == Refs(t0, o) + Occurrences(base, user, files, o)
  {
    hide AllCopies, Occurrences;
    FreshOccurrences(base, t, user, files, target, copies, o);
    assert Holders(t, o) == Holders(t0, o) + HoldersIn(t, Fresh(copies), o);
    assert Holders(t0, o) !! HoldersIn(t, Fresh(copies), o);
  }

  // Without strangers every source was copied with its whole live subtree.
  lemma WholeSubtrees(base: Table, t: Table, user: Id, files: seq<Id>, target: Option<Id>, copies: seq<map<Id, Id>>)
    requires |copies| == |files| && AllCopies(base, t, user, files, target, copies)
    requires forall f :: f in files ==> f in base && NoStrangers(base, user, f)
    ensures forall k :: 0 <= k < |files| ==> copies[k].Keys == Sub(base, Live, files[k])
  {
    hide IsCopy, AllCopies, NoStrangers;
    forall k | 0 <= k < |files| ensures copies[k].Keys == Sub(base, Live, files[k]) {
      assert files[k] in files;
      EachCopy(base, t, user, files, target, copies, k);
      CopyMap(base, t, user, files[k], target, copies[k]);
      NoStrangersSub(base, user, files[k]);
    }
  }

  // Counts moved along with the rows that were added.
  ghost predicate Charged(objs0: Objects, objs: Objects, t0: Table, t: Table) {
    objs.Keys == objs0.Keys &&
    forall o :: o in objs ==> objs[o] == objs0[o].(refCount := objs0[o].refCount + Refs(t, o) - Refs(t0, o))
  }

  lemma ChargedStart(objs: Objects, t: Table)
    ensures Charged(objs, objs, t, t)
  {}

  lemma ChargedTrans(a: Objects, b: Objects, c: Objects, x: Table, y: Table, z: Table)
    requires Charged(a, b, x, y) && Charged(b, c, y, z)
    ensures Charged(a, c, x, z)
  {}

  lemma ChargedIfDone(a: Objects, b: Objects, c: Objects, x: Table, y: Table, z: Table, done: bool)
    requires Charged(a, b, x, y) && (done ==> Charged(b, c, y, z))
    ensures done ==> Charged(a, c, x, z)
  {
    if done { ChargedTrans(a, b, c, x, y, z); }
  }

  lemma ChargedRow(objs: Objects, t: Table, n: Id, r: Row)
    requires n !in t
    ensures r.obj == None ==> Charged(objs, objs, t, t[n := r])
    ensures r.obj.Some? ==> Charged(objs, Recounted(objs, r.obj.value, 1), t, t[n := r])
  {
    hide Refs;
    forall o: Id ensures Refs(t[n := r], o) == Refs(t, o) + (if r.obj == Some(o) then 1 else 0) {
      RefsInsert(t, n, r, o);
    }
  }

  lemma ChargedKeeps(objs0: Objects, objs: Objects, t0: Table, t: Table)
    requires Charged(objs0, objs, t0, t) && ObjectsExist(t, objs) && forall x :: x in t0 ==> x in t && t[x] == t0[x]
    ensures Exact(t0, objs0) ==> Exact(t, objs)
    ensures Safe(t0, objs0) ==> Safe(t, objs)
  {
    forall o ensures Refs(t, o) >= Refs(t0, o) { HoldersGrow(t0, t, o); }
  }

  lemma HoldersGrow(t0: Table, t: Table, o: Id)
    requires forall x :: x in t0 ==> x in t && t[x] == t0[x]
    ensures Refs(t, o) >= Refs(t0, o)
  {
    assert Holders(t0, o) <= Holders(t, o);
    SubsetSize(Holders(t0, o), Holders(t, o));
  }

  lemma {:induction false} SubsetSize(a: set<Id>, b: set<Id>)
    requires a <= b
    ensures |a| <= |b|
    decreases a
  {
    if a != {} {
      var x :| x in a;
      SubsetSize(a - {x}, b - {x});
    }
  }
}
