// The listing behind a zip download: entries for the selected rows and everything live
// below them, appended to one shared list.

module Archive {
  import opened Wrappers
  import opened Forest
  import opened References
  import opened Removal
  import opened ArchiveNames
  import opened Decimals

  // A directory's path ends with a slash; a file carries its object.
  datatype Entry = Entry(zipPath: string, isDir: bool, obj: Option<Id>)

  // The path without the slash that marks a directory.
  function Base(e: Entry): string {
    if e.isDir && e.zipPath != "" then e.zipPath[..|e.zipPath| - 1] else e.zipPath
  }

  // Everything a query may say: rows as they are while the listing is built, and the ids of
  // the objects that a lookup by id finds.
  datatype Source = Source(t: Table, objs: Objects, user: Id, space: char -> bool)

  function NameOf(src: Source, x: Id): string
    requires x in src.t
  {
    SanitizeArchiveName(src.t[x].name, src.space)
  }

  // The rows a listing started at f visits.
  ghost function Listing(src: Source, f: Id): set<Id> {
    Sub(src.t, LiveOf(src.user), f)
  }

  // The entry says what the row is.
  ghost predicate Describes(src: Source, e: Entry, x: Id) {
    && x in src.t && e.isDir == src.t[x].isDir && e.zipPath != ""
    && (e.isDir ==> e.zipPath[|e.zipPath| - 1] == '/')
    && e.obj == (if e.isDir then None else src.t[x].obj) && (!e.isDir ==> e.obj.Some? && e.obj.value in src.objs)
    && SafePath(Base(e))
  }

  // The row at position k lies right below its parent, whose directory entry stands before
  // it, at position `from` or later.
  ghost predicate BelowParent(src: Source, entries: seq<Entry>, listed: seq<Id>, from: nat, k: nat)
    requires |entries| == |listed|
  {
    && k < |listed| && listed[k] in src.t && src.t[listed[k]].parent.Some?
    && exists j ::
         && from <= j < k && IsDirAt(entries, listed, j, src.t[listed[k]].parent.value)
         && Extends(src, entries[j], entries[k], listed[k])
  }

  predicate IsDirAt(entries: seq<Entry>, listed: seq<Id>, j: nat, f: Id) {
    j < |entries| && j < |listed| && listed[j] == f && entries[j].isDir
  }

  predicate Extends(src: Source, above: Entry, e: Entry, x: Id) {
    x in src.t && Base(e) == Base(above) + "/" + NameOf(src, x)
  }

  // Pre-order: from position k on, the subtree of the row listed there comes in one block.
  ghost predicate Block(src: Source, listed: seq<Id>, k: nat) {
    && k < |listed|
    && var n := |Listing(src, listed[k])|;
      k + n <= |listed| && Elements(listed[k..k + n]) == Listing(src, listed[k])
  }

  // Positions from lo on list the given rows, in pre-order, each once, each described by its
  // entry and placed below its parent.
  ghost predicate Lists(src: Source, entries: seq<Entry>, listed: seq<Id>, from: nat, lo: nat, rows: set<Id>) {
    && |entries| == |listed| && from <= lo <= |listed|
    && Elements(listed[lo..]) == rows && |listed| - lo == |rows|
    && (forall k :: lo <= k < |listed| ==> Describes(src, entries[k], listed[k]))
    && (forall k :: lo <= k < |listed| ==> Block(src, listed, k))
    && (forall k :: lo <= k < |listed| ==> BelowParent(src, entries, listed, from, k))
  }

  ghost predicate Listable(src: Source, rows: set<Id>) {
    forall x :: x in rows && x in src.t && !src.t[x].isDir ==> src.t[x].obj.Some? && src.t[x].obj.value in src.objs
  }

  // What stands in the list stays where it is.
  lemma StillThere(src: Source, entries: seq<Entry>, listed: seq<Id>, entries': seq<Entry>, listed': seq<Id>,
    from': nat, from: nat, k: nat)
    requires |entries| == |listed| && |entries'| == |listed'| && entries <= entries' && listed <= listed'
    requires k < |listed|
    requires from' <= from
    ensures Block(src, listed, k) ==> Block(src, listed', k)
    ensures BelowParent(src, entries, listed, from, k) ==> BelowParent(src, entries', listed', from', k)
  {
    hide Listing, NameOf, Base;
    if Block(src, listed, k) {
      var n := |Listing(src, listed[k])|;
      assert listed'[k..k + n] == listed[k..k + n];
    }
  }

  lemma ElementsApart(a: seq<Id>, b: seq<Id>)
    ensures Elements(a + b) == Elements(a) + Elements(b)
  {}

  // A child's own entry, followed by what lies below the child.
  lemma OneMoreChild(src: Source, e0: seq<Entry>, l0: seq<Id>, e2: seq<Entry>, l2: seq<Id>, from: nat, lo: nat,
    rows: set<Id>, c: Id)
    requires Lists(src, e0, l0, from, lo, rows) && e0 <= e2 && l0 <= l2 && |l0| < |l2|
    requires l2[|l0|] == c && c in Listing(src, c) && rows !! Listing(src, c)
    requires Lists(src, e2, l2, |l0|, |l0| + 1, Listing(src, c) - {c})
    requires Describes(src, e2[|l0|], c) && BelowParent(src, e2, l2, from, |l0|)
    ensures Lists(src, e2, l2, from, lo, rows + Listing(src, c))
  {
    hide Listing, Describes, Block, BelowParent, Elements;
    ChildBlock(l0, l2, lo, rows, c, Listing(src, c));
    assert Block(src, l2, |l0|) by { BlockFrom(src, l2, |l0|, c); }
    forall k | lo <= k < |l2|
      ensures Describes(src, e2[k], l2[k]) && Block(src, l2, k) && BelowParent(src, e2, l2, from, k)
    {
      if k < |l0| {
        StillThere(src, e0, l0, e2, l2, from, from, k);
      } else if k > |l0| {
        StillThere(src, e2, l2, e2, l2, from, |l0|, k);
      }
    }
  }

  lemma ChildBlock(l0: seq<Id>, l2: seq<Id>, lo: nat, rows: set<Id>, c: Id, sub: set<Id>)
    requires lo <= |l0| < |l2| && l0 <= l2 && l2[|l0|] == c && c in sub && rows !! sub
    requires Elements(l0[lo..]) == rows && |l0| - lo == |rows|
    requires Elements(l2[|l0| + 1..]) == sub - {c} && |l2| - (|l0| + 1) == |sub - {c}|
    ensures Elements(l2[lo..]) == rows + sub && |l2| - lo == |rows + sub|
    ensures Elements(l2[|l0|..]) == sub && |l2| - |l0| == |sub|
  {
    hide Elements;
    var m := |l0|;
    assert l2[m..] == [c] + l2[m + 1..];
    assert l2[lo..] == l0[lo..] + l2[m..];
    ElementsApart([c], l2[m + 1..]);
    ElementsOne(c);
    ElementsApart(l0[lo..], l2[m..]);
    assert {c} + (sub - {c}) == sub && |sub - {c}| == |sub| - 1;
    assert |rows + sub| == |rows| + |sub|;
  }

  lemma ElementsOne(c: Id)
    ensures Elements([c]) == {c} && Elements([]) == {}
  {}

  lemma BlockFrom(src: Source, listed: seq<Id>, m: nat, c: Id)
    requires m < |listed| && listed[m] == c
    requires Elements(listed[m..]) == Listing(src, c) && |listed| - m == |Listing(src, c)|
    ensures Block(src, listed, m)
  {
    assert listed[m..m + |Listing(src, c)|] == listed[m..];
  }

  class Archiver {
    const src: Source
    const reliable: bool
    var entries: seq<Entry>
    ghost var listed: seq<Id>        // the rows the entries stand for

    constructor (src: Source, reliable: bool)
      ensures this.src == src && this.reliable == reliable && entries == [] && listed == []
    {
      this.src, this.reliable, entries, listed := src, reliable, [], [];
    }

    // Appends the entry of row x at the given path, unless it is a file without object.
    method Append(x: Id, path: string) returns (ok: bool)
      requires |entries| == |listed| && x in src.t && SafePath(path) && path != ""
      modifies this
      ensures ok ==>
        && listed == old(listed) + [x] && |entries| == |listed| && entries[..|old(entries)|] == old(entries)
        && Describes(src, entries[|old(entries)|], x) && Base(entries[|old(entries)|]) == path
      ensures !ok ==> entries == old(entries) && listed == old(listed)
      ensures reliable ==> (ok <==> Listable(src, {x}))
      ensures ok ==> Listable(src, {x})
    {
      if src.t[x].isDir {
        entries, listed := entries + [Entry(path + "/", true, None)], listed + [x];
        assert Describes(src, entries[|old(entries)|], x);
        return true;
      }
      if src.t[x].obj == None { return false; }
      var f := Fault(reliable);
      if f || src.t[x].obj.value !in src.objs { return false; }
      entries, listed := entries + [Entry(path, false, src.t[x].obj)], listed + [x];
      assert Describes(src, entries[|old(entries)|], x);
      return true;
    }

    // One child of the folder at position `at`: its entry, and all below it.
    method CollectChild(c: Id, prefix: string, ghost at: nat) returns (ok: bool)
      requires |entries| == |listed| && Acyclic(src.t) && c in src.t && SafePath(prefix)
      requires src.t[c].parent.Some? && at < |listed|
      requires IsDirAt(entries, listed, at, src.t[c].parent.value) && Base(entries[at]) == prefix
      modifies this
      ensures |entries| == |listed| && old(entries) <= entries && old(listed) <= listed
      ensures ok ==> |old(listed)| < |listed| && listed[|old(listed)|] == c && Describes(src, entries[|old(listed)|], c)
      ensures ok ==> BelowParent(src, entries, listed, at, |old(listed)|)
      ensures ok ==> Lists(src, entries, listed, |old(listed)|, |old(listed)| + 1, Listing(src, c) - {c})
      ensures ok ==> Listable(src, Listing(src, c))
      ensures reliable && Listable(src, Listing(src, c)) ==> ok
      decreases Listing(src, c), 1
    {
      hide Acyclic, SafePath, Lists, Describes, BelowParent, Listable, Base, NameOf, Listing;
      ghost var e0, l0 := entries, listed;
      var path := PathJoin(prefix, NameOf(src, c));
      ChildPath(src, prefix, c);
      ListingUnfold(src, c);
      ok := Append(c, path);
      if !ok { return; }
      ghost var e1, l1 := entries, listed;
      PlacedBelow(src, e1, l1, at, |l0|, c);
      DescribedDir(src, e1, l1, |l0|, c);
      if src.t[c].isDir {
        ok := CollectArchiveChildren(c, path, |l0|);
        if !ok { return; }
        StillThere(src, e1, l1, entries, listed, at, at, |l0|);
        assert entries[|l0|] == e1[|l0|];
      } else {
        ListsNothing(src, entries, listed, |l0|);
        assert Listing(src, c) - {c} == {};
      }
    }

    // Everything the user has live below folder f, whose own entry stands at position `at`.
    method CollectArchiveChildren(f: Id, prefix: string, ghost at: nat) returns (ok: bool)
      requires |entries| == |listed| && Acyclic(src.t) && f in src.t && src.t[f].isDir && SafePath(prefix)
      requires at < |listed| && IsDirAt(entries, listed, at, f) && Base(entries[at]) == prefix
      modifies this
      ensures |entries| == |listed| && old(entries) <= entries && old(listed) <= listed
      ensures ok ==> Lists(src, entries, listed, at, |old(listed)|, Listing(src, f) - {f})
      ensures ok ==> Listable(src, Listing(src, f))
      ensures reliable && Listable(src, Listing(src, f)) ==> ok
      decreases Listing(src, f), 0
    {
      hide Acyclic, SafePath, Lists, Describes, BelowParent, Listable, Base, NameOf, Listing, Gone;
      ghost var v, lo := LiveOf(src.user), |listed|;
      var failed := Fault(reliable);
      if failed { return false; }
      var ch := Fetch(Kids(src.t, LiveOf(src.user), f));
      NothingListed(src, entries, listed, at, ch);
      for i := 0 to |ch|
        invariant |entries| == |listed| && old(entries) <= entries && old(listed) <= listed
        invariant Lists(src, entries, listed, at, lo, Gone(src.t, v, ch, i))
        invariant Listable(src, Gone(src.t, v, ch, i))
      {
        assert ch[i] in ch;
        OneChild(src, f, ch, i);
        ghost var e0, l0 := entries, listed;
        ok := CollectChild(ch[i], prefix, at);
        if !ok { return; }
        OneMoreChild(src, e0, l0, entries, listed, at, lo, Gone(src.t, v, ch, i), ch[i]);
      }
      AllChildren(src, f, ch);
      ok := true;
    }

    // One selected row and everything of the user's that is live below it.
    method AppendSelected(id: Id) returns (ok: bool)
      requires |entries| == |listed| && Acyclic(src.t)
      modifies this
      ensures |entries| == |listed| && old(entries) <= entries && old(listed) <= listed
      ensures ok ==>
        RootListed(src, entries, listed, |old(listed)|, id) && |listed| == |old(listed)| + |Listing(src, id)|
      ensures ok ==> Selectable(src, id) && Listable(src, Listing(src, id))
      ensures reliable && Selectable(src, id) && Listable(src, Listing(src, id)) ==> ok
    {
      hide Acyclic, SafePath, Lists, Describes, BelowParent, Listable, Base, NameOf, Listing, RootListed;
      var failed := Fault(reliable);
      if failed || !Selectable(src, id) { return false; }
      ghost var l0 := listed;
      var path := NameOf(src, id);
      RootPath(src, id);
      ListingUnfold(src, id);
      ok := Append(id, path);
      if !ok { return; }
      ghost var e1, l1 := entries, listed;
      DescribedDir(src, e1, l1, |l0|, id);
      if src.t[id].isDir {
        ok := CollectArchiveChildren(id, path, |l0|);
        if !ok { return; }
      } else {
        ListsNothing(src, entries, listed, |l0|);
        assert Listing(src, id) - {id} == {};
      }
      assert entries[|l0|] == e1[|l0|];
      RootDone(src, entries, listed, |l0|, id);
    }

    // The entries for a download: for every selected row, in order, its own entry and then
    // everything of the user's that is live below it. Any row that is not the user's live
    // row, or file without object, fails the whole listing.
    method BuildArchiveEntries(fileIDs: seq<Id>) returns (ok: bool)
      requires entries == [] && listed == [] && Acyclic(src.t)
      modifies this
      ensures |entries| == |listed|
      ensures ok ==> Built(src, entries, listed, fileIDs)
      ensures ok ==> AllSelectable(src, fileIDs, |fileIDs|)
      ensures reliable ==> (ok <==> AllSelectable(src, fileIDs, |fileIDs|))
    {
      hide Acyclic, Listable, Listing, RootListed, Offset;
      assert Offset(src, fileIDs, 0) == 0 by { OffsetStep(src, fileIDs, 0); }
      for i := 0 to |fileIDs|
        invariant |entries| == |listed| && |listed| == Offset(src, fileIDs, i)
        invariant forall k :: 0 <= k < i ==> RootListed(src, entries, listed, Offset(src, fileIDs, k), fileIDs[k])
        invariant AllSelectable(src, fileIDs, i)
      {
        ghost var e0, l0 := entries, listed;
        OffsetStep(src, fileIDs, i);
        ok := AppendSelected(fileIDs[i]);
        if !ok { return; }
        forall k | 0 <= k < i ensures RootListed(src, entries, listed, Offset(src, fileIDs, k), fileIDs[k]) {
          RootStays(src, e0, l0, entries, listed, Offset(src, fileIDs, k), fileIDs[k]);
        }
      }
      ok := true;
    }
  }

  predicate Selectable(src: Source, id: Id) {
    id in src.t && src.t[id].user == src.user && !src.t[id].deleted
  }

  ghost predicate AllSelectable(src: Source, ids: seq<Id>, n: nat)
    requires n <= |ids|
  {
    forall i :: 0 <= i < n ==>
      ids[i] in src.t && src.t[ids[i]].user == src.user && !src.t[ids[i]].deleted && Listable(src, Listing(src, ids[i]))
  }

  // Where the entries of the i-th selected row begin.
  ghost function Offset(src: Source, ids: seq<Id>, i: nat): nat
    requires i <= |ids|
  {
    if i == 0 then 0 else Offset(src, ids, i - 1) + |Listing(src, ids[i - 1])|
  }

  lemma OffsetStep(src: Source, ids: seq<Id>, i: nat)
    requires i <= |ids|
    ensures Offset(src, ids, 0) == 0
    ensures i < |ids| ==> Offset(src, ids, i + 1) == Offset(src, ids, i) + |Listing(src, ids[i])|
  {}

  // From position lo on: the row under its own name, then everything below it.
  ghost predicate RootListed(src: Source, entries: seq<Entry>, listed: seq<Id>, lo: nat, id: Id) {
    var hi := lo + |Listing(src, id)|;
    && |entries| == |listed| && lo < |listed| && hi <= |listed| && listed[lo] == id
    && Describes(src, entries[lo], id) && Base(entries[lo]) == NameOf(src, id)
    && Lists(src, entries[..hi], listed[..hi], lo, lo + 1, Listing(src, id) - {id})
  }

  lemma RootPath(src: Source, id: Id)
    requires id in src.t
    ensures SafePath(NameOf(src, id)) && NameOf(src, id) != ""
  {
    SanitizedIsGood(src.t[id].name, src.space);
    GoodIsSafe(NameOf(src, id));
  }

  lemma RootDone(src: Source, entries: seq<Entry>, listed: seq<Id>, lo: nat, id: Id)
    requires |entries| == |listed| && lo < |listed| && listed[lo] == id && id in Listing(src, id)
    requires Describes(src, entries[lo], id) && Base(entries[lo]) == NameOf(src, id)
    requires Lists(src, entries, listed, lo, lo + 1, Listing(src, id) - {id})
    ensures RootListed(src, entries, listed, lo, id) && |listed| == lo + |Listing(src, id)|
  {
    hide Listing, Describes, Base, Block, BelowParent, NameOf;
    assert |Listing(src, id) - {id}| == |Listing(src, id)| - 1;
    assert entries[..|listed|] == entries && listed[..|listed|] == listed;
  }

  lemma RootStays(src: Source, e0: seq<Entry>, l0: seq<Id>, entries: seq<Entry>, listed: seq<Id>, lo: nat, id: Id)
    requires RootListed(src, e0, l0, lo, id) && e0 <= entries && l0 <= listed && |entries| == |listed|
    ensures RootListed(src, entries, listed, lo, id)
  {
    hide Listing, Describes, Base, Lists, NameOf;
    var hi := lo + |Listing(src, id)|;
    assert entries[..hi] == e0[..hi] && listed[..hi] == l0[..hi];
  }

  lemma ListingUnfold(src: Source, c: Id)
    requires c in src.t
    ensures c in Listing(src, c) && (!src.t[c].isDir ==> Listing(src, c) == {c})
    ensures Listable(src, Listing(src, c)) ==> Listable(src, {c})
  {
    SubUnfold(src.t, LiveOf(src.user), c);
  }

  lemma PlacedBelow(src: Source, entries: seq<Entry>, listed: seq<Id>, at: nat, k: nat, c: Id)
    requires |entries| == |listed| && at < k < |listed| && listed[k] == c && c in src.t && src.t[c].parent.Some?
    requires IsDirAt(entries, listed, at, src.t[c].parent.value)
    requires Base(entries[k]) == Base(entries[at]) + "/" + NameOf(src, c)
    ensures BelowParent(src, entries, listed, at, k)
  {
    hide Base, NameOf;
  }

  lemma DescribedDir(src: Source, entries: seq<Entry>, listed: seq<Id>, k: nat, c: Id)
    requires |entries| == |listed| && k < |listed| && listed[k] == c && Describes(src, entries[k], c)
    ensures src.t[c].isDir ==> IsDirAt(entries, listed, k, c)
  {}

  lemma ListsNothing(src: Source, entries: seq<Entry>, listed: seq<Id>, at: nat)
    requires |entries| == |listed| && at <= |listed|
    ensures Lists(src, entries, listed, at, |listed|, {})
  {
    assert listed[|listed|..] == [];
  }

  lemma OneChild(src: Source, f: Id, ch: seq<Id>, i: nat)
    requires Acyclic(src.t) && f in src.t && src.t[f].isDir && Children(src.t, LiveOf(src.user), f, ch) && i < |ch|
    ensures var c, gone := ch[i], Gone(src.t, LiveOf(src.user), ch, i);
      && c in src.t && src.t[c].parent == Some(f)
      && c in Listing(src, c) && Listing(src, c) < Listing(src, f) && gone !! Listing(src, c)
      && Gone(src.t, LiveOf(src.user), ch, i + 1) == gone + Listing(src, c)
      && (Listable(src, Listing(src, f)) ==> Listable(src, Listing(src, c)))
      && (Listable(src, gone) && Listable(src, Listing(src, c)) ==> Listable(src, gone + Listing(src, c)))
  {
    assert ch[i] in ch;
    GoneStep(src.t, LiveOf(src.user), f, ch, i);
    hide Gone, Sub, Acyclic;
  }

  lemma AllChildren(src: Source, f: Id, ch: seq<Id>)
    requires Acyclic(src.t) && f in src.t && src.t[f].isDir && Children(src.t, LiveOf(src.user), f, ch)
    ensures Gone(src.t, LiveOf(src.user), ch, |ch|) == Listing(src, f) - {f}
    ensures Listable(src, Listing(src, f) - {f}) ==> Listable(src, Listing(src, f))
  {
    GoneAll(src.t, LiveOf(src.user), f, ch);
    hide Gone, Sub, Acyclic;
  }

  lemma NothingListed(src: Source, entries: seq<Entry>, listed: seq<Id>, at: nat, ch: seq<Id>)
    requires |entries| == |listed| && at <= |listed|
    ensures Lists(src, entries, listed, at, |listed|, Gone(src.t, LiveOf(src.user), ch, 0))
    ensures Listable(src, Gone(src.t, LiveOf(src.user), ch, 0))
  {
    ListsNothing(src, entries, listed, at);
    hide Lists;
    assert Gone(src.t, LiveOf(src.user), ch, 0) == {};
  }

  lemma ChildPath(src: Source, prefix: string, c: Id)
    requires SafePath(prefix) && c in src.t
    ensures PathJoin(prefix, NameOf(src, c)) == prefix + "/" + NameOf(src, c)
    ensures SafePath(prefix + "/" + NameOf(src, c)) && prefix + "/" + NameOf(src, c) != ""
  {
    SanitizedIsGood(src.t[c].name, src.space);
    JoinIsPlain(prefix, NameOf(src, c));
  }

  // ---- When the paths are distinct -----------------------------------------

  // Two rows below id that would get one name in one folder: the same parent, the same
  // kind, and names that become the same.
  ghost predicate Twins(src: Source, id: Id, x: Id, y: Id) {
    && x in Listing(src, id) && y in Listing(src, id) && x != id && y != id && x != y
    && src.t[x].parent == src.t[y].parent && src.t[x].isDir == src.t[y].isDir && NameOf(src, x) == NameOf(src, y)
  }

  // The block of one selected row, which begins at lo.
  ghost predicate RootBlock(src: Source, entries: seq<Entry>, listed: seq<Id>, lo: nat, id: Id) {
    && |entries| == |listed| && lo < |listed| && listed[lo] == id && id in Listing(src, id)
    && Describes(src, entries[lo], id) && Base(entries[lo]) == NameOf(src, id)
    && Lists(src, entries, listed, lo, lo + 1, Listing(src, id) - {id})
  }

  lemma {:induction false} NoRepeats(s: seq<Id>, j: nat, k: nat)
    requires |Elements(s)| == |s| && j < k < |s|
    ensures s[j] != s[k]
  {
    if s[j] == s[k] {
      var less := s[..k] + s[k + 1..];
      assert s == s[..k] + [s[k]] + s[k + 1..];
      assert s[j] in s[..k];
      forall x ensures x in s <==> x in less {}
      assert Elements(s) == Elements(less);
      ElementsSize(less);
    }
  }

  lemma RowsOnce(src: Source, entries: seq<Entry>, listed: seq<Id>, lo: nat, id: Id, j: nat, k: nat)
    requires RootBlock(src, entries, listed, lo, id) && lo <= j < k < |listed|
    ensures listed[j] != listed[k]
  {
    hide Listing, Describes, Block, BelowParent, NameOf, Base;
    var block := listed[lo..];
    assert block == [id] + listed[lo + 1..];
    ElementsApart([id], listed[lo + 1..]);
    ElementsOne(id);
    assert {id} + (Listing(src, id) - {id}) == Listing(src, id);
    assert |Listing(src, id) - {id}| == |Listing(src, id)| - 1;
    NoRepeats(block, j - lo, k - lo);
    assert block[j - lo] == listed[j] && block[k - lo] == listed[k];
  }

  // An entry below the root: where its parent stands, and what its path is made of.
  lemma ParentEntry(src: Source, entries: seq<Entry>, listed: seq<Id>, lo: nat, id: Id, k: nat) returns (j: nat)
    requires RootBlock(src, entries, listed, lo, id) && lo < k < |listed|
    ensures lo <= j < k && listed[k] in src.t && src.t[listed[k]].parent == Some(listed[j]) && entries[j].isDir
    ensures Base(entries[k]) == Base(entries[j]) + "/" + NameOf(src, listed[k])
    ensures listed[k] in Listing(src, id) && listed[k] != id && entries[k].isDir == src.t[listed[k]].isDir
  {
    hide Listing, NameOf, Base, SafePath;
    assert BelowParent(src, entries, listed, lo, k) && Describes(src, entries[k], listed[k]);
    j :| && lo <= j < k && IsDirAt(entries, listed, j, src.t[listed[k]].parent.value)
         && Extends(src, entries[j], entries[k], listed[k]);
    assert listed[lo + 1..][k - lo - 1] == listed[k];
    assert listed[k] in Elements(listed[lo + 1..]);
  }

  // A path says whether it is a directory's, and so what stands before the slash.
  lemma SamePathSameBase(src: Source, e: Entry, x: Id, f: Entry, y: Id)
    requires Describes(src, e, x) && Describes(src, f, y)
    ensures e.zipPath == f.zipPath <==> e.isDir == f.isDir && Base(e) == Base(f)
  {
    hide SafePath;
    NoTrailingSlash(Base(e));
    NoTrailingSlash(Base(f));
    if e.isDir { assert e.zipPath == Base(e) + "/"; }
    if f.isDir { assert f.zipPath == Base(f) + "/"; }
  }

  lemma NameIsFree(src: Source, x: Id)
    requires x in src.t
    ensures Free('/', NameOf(src, x))
  {
    SanitizedIsGood(src.t[x].name, src.space);
  }

  lemma SiblingsDiffer(src: Source, id: Id, x: Id, y: Id)
    requires x in Listing(src, id) && y in Listing(src, id) && x != id && y != id && x != y && !Twins(src, id, x, y)
    ensures src.t[x].parent == src.t[y].parent && src.t[x].isDir == src.t[y].isDir ==> NameOf(src, x) != NameOf(src, y)
  {}

  lemma {:induction false} DistinctPaths(src: Source, entries: seq<Entry>, listed: seq<Id>, lo: nat, id: Id,
    j: nat, k: nat)
    requires RootBlock(src, entries, listed, lo, id) && lo <= j < k < |listed|
    requires forall x, y :: !Twins(src, id, x, y)
    ensures entries[j].zipPath != entries[k].zipPath
    decreases k
  {
    hide Listing, NameOf, Base, SafePath, Block, BelowParent;
    var x, y := listed[j], listed[k];
    assert Describes(src, entries[j], x) && Describes(src, entries[k], y);
    SamePathSameBase(src, entries[j], x, entries[k], y);
    if entries[j].zipPath == entries[k].zipPath {
      var q := ParentEntry(src, entries, listed, lo, id, k);
      NameIsFree(src, y);
      if j == lo {
        NameIsFree(src, x);
        SlashInside(Base(entries[q]), NameOf(src, y), NameOf(src, x));
      } else {
        var p := ParentEntry(src, entries, listed, lo, id, j);
        NameIsFree(src, x);
        SplitAtLast(Base(entries[p]), NameOf(src, x), Base(entries[q]), NameOf(src, y));
        SamePathSameBase(src, entries[p], listed[p], entries[q], listed[q]);
        if p < q {
          DistinctPaths(src, entries, listed, lo, id, p, q);
        } else if q < p {
          DistinctPaths(src, entries, listed, lo, id, q, p);
        } else {
          RowsOnce(src, entries, listed, lo, id, j, k);
          SiblingsDiffer(src, id, x, y);
        }
      }
    }
  }

  lemma PositionOf(src: Source, entries: seq<Entry>, listed: seq<Id>, lo: nat, id: Id, x: Id) returns (k: nat)
    requires RootBlock(src, entries, listed, lo, id) && x in Listing(src, id) && x != id
    ensures lo < k < |listed| && listed[k] == x
  {
    hide Listing, NameOf, Base, SafePath, Block, BelowParent, Describes;
    assert x in Elements(listed[lo + 1..]);
    var i :| 0 <= i < |listed| - lo - 1 && listed[lo + 1..][i] == x;
    k := lo + 1 + i;
  }

  lemma TwinsShareAPath(src: Source, entries: seq<Entry>, listed: seq<Id>, lo: nat, id: Id, x: Id, y: Id)
    returns (j: nat, k: nat)
    requires RootBlock(src, entries, listed, lo, id) && Twins(src, id, x, y)
    ensures lo <= j < k < |listed| == |entries| && entries[j].zipPath == entries[k].zipPath
  {
    j := PositionOf(src, entries, listed, lo, id, x);
    k := PositionOf(src, entries, listed, lo, id, y);
    DescribedAt(src, entries, listed, lo, id, j);
    hide RootBlock, Twins;
    TwinsAt(src, entries, listed, lo, id, x, y, j, k);
    if k < j { j, k := k, j; }
  }

  lemma DescribedAt(src: Source, entries: seq<Entry>, listed: seq<Id>, lo: nat, id: Id, k: nat)
    requires RootBlock(src, entries, listed, lo, id) && lo <= k < |listed|
    ensures |entries| == |listed| && Describes(src, entries[k], listed[k])
  {
    hide Describes, Block, BelowParent;
  }

  lemma TwinFacts(src: Source, id: Id, x: Id, y: Id)
    requires Twins(src, id, x, y)
    ensures x in src.t && y in src.t && x != y && src.t[x].parent == src.t[y].parent && src.t[x].isDir == src.t[y].isDir
    ensures NameOf(src, x) == NameOf(src, y)
  {}

  lemma TwinsAt(src: Source, entries: seq<Entry>, listed: seq<Id>, lo: nat, id: Id, x: Id, y: Id, j: nat, k: nat)
    requires RootBlock(src, entries, listed, lo, id) && Twins(src, id, x, y) && |entries| == |listed|
    requires lo < j < |listed| && lo < k < |listed| && listed[j] == x && listed[k] == y
    ensures j != k && entries[j].zipPath == entries[k].zipPath
  {
    hide RootBlock, Listing, NameOf, Base, SafePath, Describes, Twins;
    DescribedAt(src, entries, listed, lo, id, j);
    DescribedAt(src, entries, listed, lo, id, k);
    TwinFacts(src, id, x, y);
    var p := ParentEntry(src, entries, listed, lo, id, j);
    var q := ParentEntry(src, entries, listed, lo, id, k);
    if p < q { RowsOnce(src, entries, listed, lo, id, p, q); }
    if q < p { RowsOnce(src, entries, listed, lo, id, q, p); }
    SamePathSameBase(src, entries[j], x, entries[k], y);
  }

  // Every selected row of a finished listing has such a block.
  lemma RootHasBlock(src: Source, entries: seq<Entry>, listed: seq<Id>, lo: nat, id: Id)
    requires RootListed(src, entries, listed, lo, id)
    ensures var hi := lo + |Listing(src, id)|; RootBlock(src, entries[..hi], listed[..hi], lo, id)
  {
    hide Lists, NameOf, Base, SafePath;
    SubUnfold(src.t, LiveOf(src.user), id);
  }

  // ---- Several selected rows -----------------------------------------------

  // Every path in the block of a selected row is the row's name, or that name, a slash and
  // more below a folder.
  lemma {:induction false} FirstPart(src: Source, entries: seq<Entry>, listed: seq<Id>, lo: nat, id: Id, k: nat)
    returns (rest: string)
    requires RootBlock(src, entries, listed, lo, id) && lo <= k < |listed| == |entries|
    ensures Base(entries[k]) == NameOf(src, id) + rest
    ensures if k == lo then rest == "" else rest != "" && rest[0] == '/' && entries[lo].isDir
  {
    hide RootBlock, NameOf, Base, Describes;
    RootFacts(src, entries, listed, lo, id);
    if k == lo {
      rest := "";
      assert NameOf(src, id) + "" == NameOf(src, id);
    } else {
      var j := ParentEntry(src, entries, listed, lo, id, k);
      var above := FirstPart(src, entries, listed, lo, id, j);
      rest := above + "/" + NameOf(src, listed[k]);
      assert (NameOf(src, id) + above) + "/" + NameOf(src, listed[k]) == NameOf(src, id) + rest;
    }
  }

  lemma SameFirstPart(a: string, more: string, b: string, rest: string)
    requires Free('/', a) && Free('/', b) && a + more == b + rest
    requires more == "" || more[0] == '/'
    requires rest == "" || rest[0] == '/'
    ensures a == b && more == rest
  {
    var p := a + more;
    assert more != "" ==> p[|a|] == '/';
    assert rest != "" ==> p[|b|] == '/';
    assert forall i :: 0 <= i < |a| ==> p[i] == a[i];
    assert forall i :: 0 <= i < |b| ==> p[i] == (b + rest)[i] == b[i];
    assert |a| == |b|;
    assert a == p[..|a|] && b == p[..|b|];
  }

  // Two entries of different blocks have one path only if the selected rows are of one kind
  // and get one name.
  lemma SamePathSameRoots(src: Source, e1: seq<Entry>, l1: seq<Id>, lo1: nat, id1: Id, j: nat,
    e2: seq<Entry>, l2: seq<Id>, lo2: nat, id2: Id, k: nat)
    requires RootBlock(src, e1, l1, lo1, id1) && lo1 <= j < |l1|
    requires RootBlock(src, e2, l2, lo2, id2) && lo2 <= k < |l2|
    requires e1[j].zipPath == e2[k].zipPath
    ensures Alike(src, id1, id2)
  {
    DescribedAt(src, e1, l1, lo1, id1, j);
    DescribedAt(src, e2, l2, lo2, id2, k);
    RootFacts(src, e1, l1, lo1, id1);
    RootFacts(src, e2, l2, lo2, id2);
    hide RootBlock, Listing, NameOf, Base, SafePath;
    SamePathSameBase(src, e1[j], l1[j], e2[k], l2[k]);
    var more := FirstPart(src, e1, l1, lo1, id1, j);
    var rest := FirstPart(src, e2, l2, lo2, id2, k);
    NameIsFree(src, id1);
    NameIsFree(src, id2);
    SameFirstPart(NameOf(src, id1), more, NameOf(src, id2), rest);
  }

  lemma RootFacts(src: Source, entries: seq<Entry>, listed: seq<Id>, lo: nat, id: Id)
    requires RootBlock(src, entries, listed, lo, id)
    ensures |entries| == |listed| > lo && id in src.t && Describes(src, entries[lo], id)
    ensures entries[lo].isDir == src.t[id].isDir && Base(entries[lo]) == NameOf(src, id)
  {
    hide Lists, NameOf, Base, SafePath;
  }

  // Rows of one kind whose names become the same.
  predicate Alike(src: Source, x: Id, y: Id) {
    x in src.t && y in src.t && src.t[x].isDir == src.t[y].isDir && NameOf(src, x) == NameOf(src, y)
  }

  predicate SelectedAlike(src: Source, ids: seq<Id>, a: nat, b: nat) {
    a < b < |ids| && Alike(src, ids[a], ids[b])
  }

  // What BuildArchiveEntries promises of its result.
  ghost predicate Built(src: Source, entries: seq<Entry>, listed: seq<Id>, ids: seq<Id>) {
    && |entries| == |listed| == Offset(src, ids, |ids|)
    && forall i :: 0 <= i < |ids| ==> RootListed(src, entries, listed, Offset(src, ids, i), ids[i])
  }

  lemma {:induction false} OffsetsRise(src: Source, ids: seq<Id>, a: nat, b: nat)
    requires a <= b <= |ids|
    ensures Offset(src, ids, a) <= Offset(src, ids, b)
  {
    if a < b { OffsetsRise(src, ids, a, b - 1); }
  }

  lemma {:induction false} BlockOf(src: Source, ids: seq<Id>, n: nat, k: nat) returns (i: nat)
    requires n <= |ids| && k < Offset(src, ids, n)
    ensures i < n && Offset(src, ids, i) <= k < Offset(src, ids, i + 1)
  {
    hide Listing;
    if k < Offset(src, ids, n - 1) { i := BlockOf(src, ids, n - 1, k); } else { i := n - 1; }
  }

  lemma BlockAt(src: Source, entries: seq<Entry>, listed: seq<Id>, ids: seq<Id>, i: nat)
    requires Built(src, entries, listed, ids) && i < |ids|
    ensures var lo, hi := Offset(src, ids, i), Offset(src, ids, i + 1);
      lo < hi <= |listed| && RootBlock(src, entries[..hi], listed[..hi], lo, ids[i])
  {
    hide RootListed, RootBlock, Listing;
    OffsetStep(src, ids, i);
    RootHasBlock(src, entries, listed, Offset(src, ids, i), ids[i]);
    RootFits(src, entries, listed, Offset(src, ids, i), ids[i]);
  }

  lemma RootFits(src: Source, entries: seq<Entry>, listed: seq<Id>, lo: nat, id: Id)
    requires RootListed(src, entries, listed, lo, id)
    ensures lo < lo + |Listing(src, id)| <= |listed|
  {
    SubUnfold(src.t, LiveOf(src.user), id);
    hide Lists, NameOf, Base, SafePath;
    assert id in Listing(src, id);
  }

  lemma TwinsCollide(src: Source, entries: seq<Entry>, listed: seq<Id>, ids: seq<Id>, i: nat, x: Id, y: Id)
    returns (j: nat, k: nat)
    requires Built(src, entries, listed, ids) && i < |ids| && Twins(src, ids[i], x, y)
    ensures j < k < |entries| && entries[j].zipPath == entries[k].zipPath
  {
    hide Built, Twins, RootBlock, Listing;
    BlockAt(src, entries, listed, ids, i);
    var lo, hi := Offset(src, ids, i), Offset(src, ids, i + 1);
    BuiltSizes(src, entries, listed, ids);
    j, k := TwinsShareAPath(src, entries[..hi], listed[..hi], lo, ids[i], x, y);
  }

  lemma BuiltSizes(src: Source, entries: seq<Entry>, listed: seq<Id>, ids: seq<Id>)
    requires Built(src, entries, listed, ids)
    ensures |entries| == |listed| == Offset(src, ids, |ids|)
  {}

  lemma AlikeCollide(src: Source, entries: seq<Entry>, listed: seq<Id>, ids: seq<Id>, a: nat, b: nat)
    requires Built(src, entries, listed, ids) && SelectedAlike(src, ids, a, b)
    ensures var j, k := Offset(src, ids, a), Offset(src, ids, b);
      j < k < |entries| && entries[j].zipPath == entries[k].zipPath
  {
    hide Built, RootBlock, Offset, NameOf, Base, Describes;
    RootAt(src, entries, listed, ids, a);
    RootAt(src, entries, listed, ids, b);
    OffsetsRise(src, ids, a + 1, b);
    var j, k := Offset(src, ids, a), Offset(src, ids, b);
    SamePathSameBase(src, entries[j], ids[a], entries[k], ids[b]);
  }

  lemma RootAt(src: Source, entries: seq<Entry>, listed: seq<Id>, ids: seq<Id>, i: nat)
    requires Built(src, entries, listed, ids) && i < |ids|
    ensures var k := Offset(src, ids, i);
      && k < |entries| && k < Offset(src, ids, i + 1) && ids[i] in src.t
      && entries[k].isDir == src.t[ids[i]].isDir && Base(entries[k]) == NameOf(src, ids[i])
      && Describes(src, entries[k], ids[i])
  {
    hide Built, RootBlock, NameOf, Base, Describes, Listing;
    BuiltSizes(src, entries, listed, ids);
    BlockAt(src, entries, listed, ids, i);
    var lo, hi := Offset(src, ids, i), Offset(src, ids, i + 1);
    RootFacts(src, entries[..hi], listed[..hi], lo, ids[i]);
  }

  lemma ApartWithin(src: Source, entries: seq<Entry>, listed: seq<Id>, ids: seq<Id>, i: nat, j: nat, k: nat)
    requires Built(src, entries, listed, ids) && i < |ids| && forall x, y :: !Twins(src, ids[i], x, y)
    requires Offset(src, ids, i) <= j < k < Offset(src, ids, i + 1) <= |entries|
    ensures entries[j].zipPath != entries[k].zipPath
  {
    hide Built, RootBlock, Twins, Offset, Listing;
    BuiltSizes(src, entries, listed, ids);
    BlockAt(src, entries, listed, ids, i);
    var hi := Offset(src, ids, i + 1);
    DistinctPaths(src, entries[..hi], listed[..hi], Offset(src, ids, i), ids[i], j, k);
  }

  lemma ApartAcross(src: Source, entries: seq<Entry>, listed: seq<Id>, ids: seq<Id>, a: nat, b: nat, j: nat, k: nat)
    requires Built(src, entries, listed, ids) && a < |ids| && b < |ids| && !Alike(src, ids[a], ids[b])
    requires Offset(src, ids, a) <= j < Offset(src, ids, a + 1) <= |entries|
    requires Offset(src, ids, b) <= k < Offset(src, ids, b + 1) <= |entries|
    ensures entries[j].zipPath != entries[k].zipPath
  {
    hide Built, RootBlock, Alike, Offset, Listing;
    BuiltSizes(src, entries, listed, ids);
    BlockAt(src, entries, listed, ids, a);
    BlockAt(src, entries, listed, ids, b);
    var h1, h2 := Offset(src, ids, a + 1), Offset(src, ids, b + 1);
    if entries[j].zipPath == entries[k].zipPath {
      SamePathSameRoots(src, entries[..h1], listed[..h1], Offset(src, ids, a), ids[a], j,
                        entries[..h2], listed[..h2], Offset(src, ids, b), ids[b], k);
    }
  }

  lemma ApartWhenUnlike(src: Source, entries: seq<Entry>, listed: seq<Id>, ids: seq<Id>, j: nat, k: nat)
    requires Built(src, entries, listed, ids) && j < k < |entries|
    requires forall i, x, y :: 0 <= i < |ids| ==> !Twins(src, ids[i], x, y)
    requires forall a, b :: !SelectedAlike(src, ids, a, b)
    ensures entries[j].zipPath != entries[k].zipPath
  {
    hide Built, RootBlock, Twins, Alike, Offset, Listing;
    BuiltSizes(src, entries, listed, ids);
    var a := BlockOf(src, ids, |ids|, j);
    var b := BlockOf(src, ids, |ids|, k);
    OffsetsRise(src, ids, a + 1, |ids|);
    OffsetsRise(src, ids, b + 1, |ids|);
    if a == b {
      ApartWithin(src, entries, listed, ids, a, j, k);
    } else {
      if a > b { OffsetsRise(src, ids, b + 1, a); }
      assert !SelectedAlike(src, ids, a, b);
      ApartAcross(src, entries, listed, ids, a, b, j, k);
    }
  }

  // All paths of a finished listing are distinct if and only if no two rows of one kind in
  // one folder below a selected row have names that become the same, and neither have two
  // selected rows of one kind, wherever they lie; a row selected twice is one of the cases.
  lemma ArchivePathsDistinctIff(src: Source, entries: seq<Entry>, listed: seq<Id>, ids: seq<Id>)
    requires Built(src, entries, listed, ids)
    ensures (forall j, k :: 0 <= j < k < |entries| ==> entries[j].zipPath != entries[k].zipPath) <==>
      && (forall i, x, y :: 0 <= i < |ids| ==> !Twins(src, ids[i], x, y))
      && (forall a, b :: !SelectedAlike(src, ids, a, b))
  {
    hide Built, Twins, SelectedAlike, Offset;
    if i, x, y :| 0 <= i < |ids| && Twins(src, ids[i], x, y) {
      var j, k := TwinsCollide(src, entries, listed, ids, i, x, y);
    } else if a, b :| SelectedAlike(src, ids, a, b) {
      AlikeCollide(src, entries, listed, ids, a, b);
    } else {
      forall j, k | 0 <= j < k < |entries| ensures entries[j].zipPath != entries[k].zipPath {
        ApartWhenUnlike(src, entries, listed, ids, j, k);
      }
    }
  }
}
