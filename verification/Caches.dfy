// What it means for the two Redis caches to agree with the tables.

module Caches {
  import opened Wrappers
  import opened Forest
  import opened References
  import opened CacheKeys

  // ---- The object cache: by id, by hash, by path --------------------------

  datatype ObjectCache = ObjectCache(ids: map<Id, Obj>, hashes: map<string, Id>, paths: map<Loc, Id>)

  // cacheFileObject
  function Remember(c: ObjectCache, o: Id, obj: Obj): (r: ObjectCache)
    ensures obj.hash == "" ==> r.hashes == c.hashes
    ensures obj.loc.bucket == "" || obj.loc.path == "" ==> r.paths == c.paths
  {
    ObjectCache(
      c.ids[o := obj],
      if obj.hash != "" then c.hashes[obj.hash := o] else c.hashes,
      if obj.loc.bucket != "" && obj.loc.path != "" then c.paths[obj.loc := o] else c.paths)
  }

  // An entry for an object that is in the table agrees with the table.
  ghost predicate CacheOk(objs: Objects, nextObj: Id, c: ObjectCache) {
    && (forall o :: o in c.ids ==> o < nextObj && (o in objs ==> c.ids[o] == objs[o]))
    && (forall h :: h in c.hashes ==> c.hashes[h] < nextObj && (c.hashes[h] in objs ==> objs[c.hashes[h]].hash == h))
    && (forall l :: l in c.paths ==> c.paths[l] < nextObj && (c.paths[l] in objs ==> objs[c.paths[l]].loc == l))
  }

  // The same, but the id entry of `o` may be behind.
  ghost predicate CacheOkBut(objs: Objects, nextObj: Id, c: ObjectCache, o: Id) {
    CacheOk(objs, nextObj, c.(ids := c.ids - {o}))
  }

  // No entry names an object that has left the table.
  ghost predicate NoGhosts(objs: Objects, c: ObjectCache) {
    && (forall o :: o in c.ids ==> o in objs)
    && (forall h :: h in c.hashes ==> c.hashes[h] in objs)
    && (forall l :: l in c.paths ==> c.paths[l] in objs)
  }

  // Caching a row of the table, or again what is cached already, keeps the cache right.
  lemma RememberOk(objs: Objects, nextObj: Id, c: ObjectCache, o: Id, obj: Obj)
    requires CacheOk(objs, nextObj, c) && o < nextObj && (o in objs ==> objs[o] == obj)
    ensures CacheOk(objs, nextObj, Remember(c, o, obj))
    ensures NoGhosts(objs, c) && o in objs ==> NoGhosts(objs, Remember(c, o, obj))
  {}

  lemma ForgetOk(objs: Objects, nextObj: Id, c: ObjectCache, i: set<Id>, h: set<string>, l: set<Loc>)
    requires CacheOk(objs, nextObj, c)
    ensures CacheOk(objs, nextObj, ObjectCache(c.ids - i, c.hashes - h, c.paths - l))
    ensures NoGhosts(objs, c) ==> NoGhosts(objs, ObjectCache(c.ids - i, c.hashes - h, c.paths - l))
  {}

  // Repairing an object: drop the old path entry if the path changes, cache the new row.
  lemma RelocatedInBoth(objs: Objects, nextObj: Id, c: ObjectCache, o: Id, x: Obj)
    requires CacheOk(objs, nextObj, c) && o in objs && o < nextObj && x.hash == objs[o].hash
    ensures var c' := AfterRepair(c, objs[o].loc, o, x);
      CacheOk(objs[o := x], nextObj, c') && (NoGhosts(objs, c) ==> NoGhosts(objs[o := x], c'))
  {
    hide CacheOk, NoGhosts, AfterRepair;
    RelocatedOk(objs, nextObj, c, o, x);
    RelocatedNoGhosts(objs, c, o, x);
  }

  function AfterRepair(c: ObjectCache, was: Loc, o: Id, x: Obj): ObjectCache {
    Remember(if was == x.loc then c else ObjectCache(c.ids, c.hashes, c.paths - {was}), o, x)
  }

  lemma RelocatedOk(objs: Objects, nextObj: Id, c: ObjectCache, o: Id, x: Obj)
    requires CacheOk(objs, nextObj, c) && o in objs && o < nextObj && x.hash == objs[o].hash
    ensures CacheOk(objs[o := x], nextObj, AfterRepair(c, objs[o].loc, o, x))
  {}

  lemma RelocatedNoGhosts(objs: Objects, c: ObjectCache, o: Id, x: Obj)
    requires o in objs
    ensures NoGhosts(objs, c) ==> NoGhosts(objs[o := x], AfterRepair(c, objs[o].loc, o, x))
  {}

  // What a repair leaves in the cache, for an object in the table and for one that is gone.
  lemma RepairedCache(objs: Objects, nextObj: Id, c: ObjectCache, o: Id, obj: Obj, x: Obj)
    requires CacheOk(objs, nextObj, c) && o < nextObj && (o in objs ==> objs[o] == obj) && x.hash == obj.hash
    ensures var c' := AfterRepair(c, obj.loc, o, x);
      && CacheOk(if o in objs then objs[o := x] else objs, nextObj, c')
      && (NoGhosts(objs, c) && o in objs ==> NoGhosts(objs[o := x], c'))
  {
    if o in objs {
      RelocatedInBoth(objs, nextObj, c, o, x);
    } else {
      ForgetOk(objs, nextObj, c, {}, {}, {obj.loc});
      assert c.ids - {} == c.ids && c.hashes - {} == c.hashes;
      RememberOk(objs, nextObj,
        if obj.loc == x.loc then c else ObjectCache(c.ids, c.hashes, c.paths - {obj.loc}), o, x);
    }
    hide CacheOk, NoGhosts;
  }

  // Repairing an object in place without telling the cache leaves only its id entry behind.
  lemma RelocatedInTable(objs: Objects, nextObj: Id, c: ObjectCache, o: Id, x: Obj)
    requires CacheOk(objs, nextObj, c) && o in objs && x.hash == objs[o].hash && x.loc == objs[o].loc
    ensures CacheOkBut(objs[o := x], nextObj, c, o)
    ensures NoGhosts(objs, c) ==> NoGhosts(objs[o := x], c)
  {}

  lemma CacheOkImpliesBut(objs: Objects, nextObj: Id, c: ObjectCache, o: Id)
    requires CacheOk(objs, nextObj, c)
    ensures CacheOkBut(objs, nextObj, c, o)
  {}

  // Removing an object together with its three entries leaves no ghost.
  lemma RemovedFromBoth(objs: Objects, nextObj: Id, c: ObjectCache, o: Id)
    requires CacheOk(objs, nextObj, c) && o in objs
    ensures CacheOk(objs - {o}, nextObj, c)
    ensures NoGhosts(objs, c) ==>
      NoGhosts(objs - {o}, ObjectCache(c.ids - {o}, c.hashes - {objs[o].hash}, c.paths - {objs[o].loc}))
  {}

  // ---- The folder-page cache ----------------------------------------------

  datatype Page = Page(files: seq<(Id, Row)>, total: nat)

  // How the database answers a list request from a folder's live rows.
  type Query = (map<Id, Row>, PageReq) -> Page

  function CacheParent(parent: Option<Id>): Id {
    match parent case None => 0 case Some(p) => p
  }

  function FolderView(t: Table, user: Id, p: Id): (r: map<Id, Row>)
    ensures forall i :: i in r ==> i in t && r[i] == t[i]
    ensures forall i :: i in r <==>
      i in t && t[i].user == user && !t[i].deleted && p == CacheParent(t[i].parent) && t[i].parent != Some(0)
  {
    map i | i in t && t[i].user == user && !t[i].deleted
      && t[i].parent == (if p == 0 then None else Some(p)) :: t[i]
  }

  // The root, a folder that exists, or an id not handed out yet. Pages of deleted
  // folders may be stale, and their ids never come back.
  ghost predicate Relevant(t: Table, nextRow: Id, p: Id) {
    p == 0 || p in t || p >= nextRow
  }

  // Every cached page of a relevant folder outside `stale` is what a query returns now.
  ghost predicate CoherentExcept(t: Table, nextRow: Id, pages: map<string, Page>, q: Query, stale: set<(Id, Id)>) {
    forall u: Id, p: Id, r: PageReq ::
      ListKey(u, p, r) in pages && Relevant(t, nextRow, p) && (u, p) !in stale ==>
        pages[ListKey(u, p, r)] == q(FolderView(t, u, p), r)
  }

  ghost predicate Coherent(t: Table, nextRow: Id, pages: map<string, Page>, q: Query) {
    CoherentExcept(t, nextRow, pages, q, {})
  }

  lemma WeakenStale(t: Table, n: Id, pages: map<string, Page>, q: Query, less: set<(Id, Id)>, more: set<(Id, Id)>)
    requires less <= more
    ensures CoherentExcept(t, n, pages, q, less) ==> CoherentExcept(t, n, pages, q, more)
  {}

  // Frame rule: a write makes stale only the folders whose view it changes.
  lemma ChangedFolders(t: Table, n: Id, t': Table, n': Id, pages: map<string, Page>, q: Query,
                       before: set<(Id, Id)>, stale: set<(Id, Id)>)
    requires CoherentExcept(t, n, pages, q, before) && before <= stale
    requires forall p :: Relevant(t', n', p) ==> Relevant(t, n, p)
    requires forall u: Id, p: Id :: Relevant(t', n', p) && (u, p) !in stale ==>
      FolderView(t', u, p) == FolderView(t, u, p)
    ensures CoherentExcept(t', n', pages, q, stale)
  {
    forall u: Id, p: Id, r: PageReq |
      ListKey(u, p, r) in pages && Relevant(t', n', p) && (u, p) !in stale
      ensures pages[ListKey(u, p, r)] == q(FolderView(t', u, p), r)
    {
      assert Relevant(t, n, p) && (u, p) !in before;
      assert FolderView(t', u, p) == FolderView(t, u, p);
    }
  }

  // An INSERT changes the view of one folder.
  lemma InsertChangesOne(t: Table, n: Id, r: Row, pages: map<string, Page>, q: Query, stale: set<(Id, Id)>)
    requires CoherentExcept(t, n, pages, q, stale)
    requires n > 0 && n !in t && (r.parent.Some? ==> r.parent.value in t) && forall i :: i in t ==> i > 0
    ensures CoherentExcept(t[n := r], n + 1, pages, q, stale + {(r.user, CacheParent(r.parent))})
  {
    var t' := t[n := r];
    forall u: Id, p: Id | (u, p) != (r.user, CacheParent(r.parent))
      ensures FolderView(t', u, p) == FolderView(t, u, p)
    {}
    ChangedFolders(t, n, t', n + 1, pages, q, stale, stale + {(r.user, CacheParent(r.parent))});
  }

  // So does an UPDATE of a row that stays where it is.
  lemma UpdateChangesOne(t: Table, n: Id, i: Id, r: Row, pages: map<string, Page>, q: Query)
    requires Coherent(t, n, pages, q) && i in t && r.user == t[i].user && r.parent == t[i].parent && r.parent != Some(0)
    ensures CoherentExcept(t[i := r], n, pages, q, {(r.user, CacheParent(r.parent))})
  {
    var t' := t[i := r];
    forall u: Id, p: Id | (u, p) != (r.user, CacheParent(r.parent))
      ensures FolderView(t', u, p) == FolderView(t, u, p)
    {}
    ChangedFolders(t, n, t', n, pages, q, {}, {(r.user, CacheParent(r.parent))});
  }

  // The folders whose listings mention one of `ids`.
  function FoldersOf(t: Table, ids: set<Id>): set<(Id, Id)> {
    set i | i in ids && i in t :: (t[i].user, CacheParent(t[i].parent))
  }

  // An UPDATE of many rows changes the folders they were in and the folders they are in now.
  lemma UpdateChangesMany(t: Table, n: Id, t': Table, ids: set<Id>, pages: map<string, Page>, q: Query)
    requires Coherent(t, n, pages, q) && t.Keys == t'.Keys
    requires forall i :: i in t && i !in ids ==> t'[i] == t[i]
    requires forall i :: i in t ==> t[i].parent != Some(0) && t'[i].parent != Some(0) && t'[i].user == t[i].user
    ensures CoherentExcept(t', n, pages, q, FoldersOf(t, ids) + FoldersOf(t', ids))
  {
    var stale := FoldersOf(t, ids) + FoldersOf(t', ids);
    forall u: Id, p: Id | (u, p) !in stale
      ensures FolderView(t', u, p) == FolderView(t, u, p)
    {
      forall i | i in t && i in ids && t[i].user == u
        ensures CacheParent(t[i].parent) != p && CacheParent(t'[i].parent) != p
      {
        assert (t[i].user, CacheParent(t[i].parent)) in stale && (t'[i].user, CacheParent(t'[i].parent)) in stale;
      }
    }
    ChangedFolders(t, n, t', n, pages, q, {}, stale);
  }

  function Dropped(pages: map<string, Page>, user: Id, p: Id): map<string, Page> {
    map k | k in pages && !GlobMatch(ListPattern(user, p), k) :: pages[k]
  }

  // Deleting by a folder's pattern cures that folder and touches no other page.
  lemma DropCures(t: Table, n: Id, pages: map<string, Page>, q: Query, stale: set<(Id, Id)>, user: Id, p: Id)
    requires CoherentExcept(t, n, pages, q, stale)
    ensures CoherentExcept(t, n, Dropped(pages, user, p), q, stale - {(user, p)})
    ensures forall u: Id, p': Id, r: PageReq ::
      ListKey(u, p', r) in Dropped(pages, user, p) <==> ListKey(u, p', r) in pages && (u, p') != (user, p)
  {
    forall u: Id, p': Id, r: PageReq
      ensures ListKey(u, p', r) in Dropped(pages, user, p) <==> ListKey(u, p', r) in pages && (u, p') != (user, p)
    {
      ListPatternExact(user, p, u, p', r);
    }
  }

  // A page stored under its own key is the only page it changes.
  lemma StoreCoherent(t: Table, n: Id, pages: map<string, Page>, q: Query, user: Id, p: Id, r: PageReq)
    requires Coherent(t, n, pages, q)
    ensures Coherent(t, n, pages[ListKey(user, p, r) := q(FolderView(t, user, p), r)], q)
  {
    forall u: Id, p': Id, r': PageReq | ListKey(u, p', r') == ListKey(user, p, r)
      ensures u == user && p' == p && r' == r
    {
      ListKeyInjective(u, p', r', user, p, r);
    }
  }

  // The pages of folder p still show what the table holds.
  ghost predicate PagesStand(t: Table, t': Table, pages: map<string, Page>, q: Query, u: Id, p: Id) {
    forall r: PageReq :: ListKey(u, p, r) in pages ==> q(FolderView(t', u, p), r) == q(FolderView(t, u, p), r)
  }

  // After writes that changed the listings of some folders and dropped some pages, coherence
  // is a matter of the pages of those folders that are still cached.
  lemma CoherentIff(t: Table, n: Id, pages: map<string, Page>, t': Table, n': Id, pages': map<string, Page>, q: Query,
    touched: set<Id>)
    requires Coherent(t, n, pages, q) && forall k :: k in pages' ==> k in pages && pages'[k] == pages[k]
    requires forall p :: Relevant(t', n', p) ==> Relevant(t, n, p)
    requires forall u: Id, p: Id :: Relevant(t', n', p) && p !in touched ==> FolderView(t', u, p) == FolderView(t, u, p)
    ensures Coherent(t', n', pages', q) <==>
      forall u: Id, p: Id :: p in touched && Relevant(t', n', p) ==> PagesStand(t, t', pages', q, u, p)
  {
    hide FolderView, Relevant;
    if Coherent(t', n', pages', q) {
      forall u: Id, p: Id, r: PageReq | p in touched && Relevant(t', n', p) && ListKey(u, p, r) in pages'
        ensures q(FolderView(t', u, p), r) == q(FolderView(t, u, p), r)
      {
        assert pages[ListKey(u, p, r)] == q(FolderView(t, u, p), r);
        assert pages'[ListKey(u, p, r)] == q(FolderView(t', u, p), r);
      }
    }
    if forall u: Id, p: Id :: p in touched && Relevant(t', n', p) ==> PagesStand(t, t', pages', q, u, p) {
      forall u: Id, p: Id, r: PageReq | ListKey(u, p, r) in pages' && Relevant(t', n', p)
        ensures pages'[ListKey(u, p, r)] == q(FolderView(t', u, p), r)
      {
        assert pages[ListKey(u, p, r)] == q(FolderView(t, u, p), r);
        if p in touched { assert PagesStand(t, t', pages', q, u, p); }
      }
    }
  }

  // Cache expiry only loses entries.
  lemma ExpiryCoherent(t: Table, n: Id, pages: map<string, Page>, q: Query, gone: set<string>)
    requires Coherent(t, n, pages, q)
    ensures Coherent(t, n, pages - gone, q)
  {}
}
