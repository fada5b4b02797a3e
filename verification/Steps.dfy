// What a run of single writes may do to tables and pages, step by step.

module Steps {
  import opened Wrappers
  import opened Forest
  import opened References
  import opened Caches
  import opened Contents

  // The two tables after every database write.
  type History = seq<(Table, Objects)>

  // From the k-th write on, no count was ever too low.
  ghost predicate SafeFrom(log: History, k: nat) {
    forall i :: k <= i < |log| ==> Safe(log[i].0, log[i].1)
  }

  lemma SafeFromNow(log: History)
    ensures SafeFrom(log, |log|)
  {}

  datatype Snap = Snap(rows: Table, objs: Objects, log: History, pages: map<string, Page>)

  // Every row that b has and a has not is a folder.
  ghost predicate FoldersOnly(a: Table, b: Table) {
    forall x :: x in b && x !in a ==> b[x].isDir
  }

  // What copying may do to the tables between two moments, whatever fails: rows of the user
  // are added that refer to objects already referred to, counts change, pages are dropped.
  ghost predicate Added(user: Id, a: Snap, b: Snap) {
    && (forall x :: x in a.rows ==> x in b.rows && b.rows[x] == a.rows[x])
    && (forall x :: x in b.rows && x !in a.rows ==> b.rows[x].user == user)
    && (forall x :: x in b.rows && b.rows[x].obj.Some? ==> HasHolder(a.rows, b.rows[x].obj.value))
    && SameButCounts(a.objs, b.objs) && Submap(b.pages, a.pages)
  }

  // From exact counts, the counts were safe all the way exactly if no file was added.
  ghost predicate SafeIffFolders(a: Snap, b: Snap) {
    && a.log <= b.log
    && (Exact(a.rows, a.objs) ==>
        && (SafeFrom(b.log, |a.log|) <==> FoldersOnly(a.rows, b.rows))
        && (FoldersOnly(a.rows, b.rows) ==> Exact(b.rows, b.objs)))
  }

  ghost predicate Copied(user: Id, a: Snap, b: Snap) {
    Added(user, a, b) && SafeIffFolders(a, b)
  }

  lemma CopiedNothing(user: Id, a: Snap)
    ensures Copied(user, a, a)
  {}

  lemma CopiedPages(user: Id, a: Snap, b: Snap)
    requires b.rows == a.rows && b.objs == a.objs && b.log == a.log && Submap(b.pages, a.pages)
    ensures Copied(user, a, b)
  {}

  lemma AddedTrans(user: Id, a: Snap, b: Snap, c: Snap)
    requires Added(user, a, b) && Added(user, b, c)
    ensures Added(user, a, c)
  {
    forall x | x in c.rows && c.rows[x].obj.Some? ensures HasHolder(a.rows, c.rows[x].obj.value) {
      var i :| i in b.rows && b.rows[i].obj == Some(c.rows[x].obj.value);
    }
  }

  lemma SafeIffTrans(user: Id, a: Snap, b: Snap, c: Snap)
    requires SafeIffFolders(a, b) && SafeIffFolders(b, c) && Added(user, a, b) && Added(user, b, c)
    ensures SafeIffFolders(a, c)
  {
    hide Exact, Safe;
    assert SafeFrom(c.log, |a.log|) <==> SafeFrom(b.log, |a.log|) && SafeFrom(c.log, |b.log|) by {
      assert forall i :: 0 <= i < |b.log| ==> c.log[i] == b.log[i];
    }
    assert FoldersOnly(a.rows, c.rows) <==> FoldersOnly(a.rows, b.rows) && FoldersOnly(b.rows, c.rows);
  }

  lemma CopiedTrans(user: Id, a: Snap, b: Snap, c: Snap)
    requires Copied(user, a, b) && Copied(user, b, c)
    ensures Copied(user, a, c)
  {
    hide Added, SafeIffFolders;
    AddedTrans(user, a, b, c);
    SafeIffTrans(user, a, b, c);
  }

  // A folder row is inserted.
  lemma CopiedFolder(user: Id, a: Snap, b: Snap, n: Id, r: Row)
    requires n !in a.rows && r.user == user && r.isDir && r.obj == None
    requires b == a.(rows := a.rows[n := r], log := a.log + [(a.rows[n := r], a.objs)])
    ensures Copied(user, a, b)
  {
    InsertFolder(a.rows, a.objs, n, r);
    if Exact(b.rows, b.objs) { ExactIsSafe(b.rows, b.objs); }
    hide Exact, Safe;
  }

  // A file row is inserted for an object in use, and then perhaps counted.
  lemma CopiedFile(user: Id, a: Snap, b: Snap, n: Id, r: Row, o: Id)
    requires n !in a.rows && r.user == user && !r.isDir && r.obj == Some(o) && HasHolder(a.rows, o) && o in a.objs
    requires b.rows == a.rows[n := r] && b.pages == a.pages && a.log + [(b.rows, a.objs)] <= b.log
    requires b.objs == a.objs || b.objs == Recounted(a.objs, o, 1)
    ensures Copied(user, a, b)
  {
    hide SafeFrom, Exact, Safe;
    assert SafeIffFolders(a, b) by {
      assert b.rows[n] == r && !FoldersOnly(a.rows, b.rows);
      if Exact(a.rows, a.objs) { UncountedFileShows(a, b, n, r, o); }
    }
    hide SafeIffFolders, FoldersOnly;
  }

  lemma UncountedFileShows(a: Snap, b: Snap, n: Id, r: Row, o: Id)
    requires n !in a.rows && r.obj == Some(o) && o in a.objs && Exact(a.rows, a.objs)
    requires a.log + [(a.rows[n := r], a.objs)] <= b.log
    ensures !SafeFrom(b.log, |a.log|)
  {
    InsertFirstBreaks(a.rows, a.objs, n, r, o);
    assert b.log[|a.log|] == (a.rows[n := r], a.objs);
  }
}
