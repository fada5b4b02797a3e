// Whole runs: any sequence of uploads, tree operations, listings and cache expiries.

module Runs {
  import opened Wrappers
  import opened Forest
  import opened References
  import opened CacheKeys
  import opened Caches
  import opened Contents
  import opened Steps
  import opened Removal
  import opened ObjectNames
  import opened Copies
  import opened Netdisk

  datatype Op =
    | FastUpload(user: Id, parentId: Id, name: string, size: int, hash: string)
    | MultiPartInit(user: Id, parentId: Id, name: string, hash: string)
    | Complete(user: Id, userName: string, parentId: Id, name: string, hash: string, size: int, data: Bytes)
    | DirectUpload(user: Id, loc: Loc, size: int, name: string, hash: string, data: Bytes)
    | UrlUpload(user: Id, userName: string, token: string, size: int, parent: Option<Id>, name: string, data: Bytes)
    | StoreDownload(user: Id, userName: string, token: string, size: int, name: string, data: Bytes)
    | NewFolder(user: Id, parent: Option<Id>, name: string)
    | Recycle(user: Id, file: Id)
    | BatchRecycle(user: Id, ids: seq<Id>)
    | Restore(user: Id, file: Id)
    | Rename(user: Id, file: Id, name: string)
    | Move(user: Id, ids: seq<Id>, target: Option<Id>)
    | Copy(user: Id, ids: seq<Id>, target: Option<Id>)
    | Delete(user: Id, file: Id)
    | List(user: Id, parent: Option<Id>, req: PageReq)
    | LookupById(id: Id)
    | LookupByHash(hash: string)
    | LookupByPath(loc: Loc)
    | Expire(keys: set<string>, objects: set<Id>, hashes: set<string>, paths: set<Loc>)

  lemma {:induction false} PathSplit(t: Table, v: View, x: Id, f: Id, n: nat, m: nat)
    requires Path(t, v, x, f, m) && n <= m
    ensures Up(t, x, n).Some? && Path(t, v, Up(t, x, n).value, f, m - n)
    decreases n
  {
    if n > 0 {
      var p := t[x].parent.value;
      assert Up(t, x, 0) == Some(x) && Up(t, x, 1) == Some(p);
      PathSplit(t, v, p, f, n - 1, m - 1);
      UpAdd(t, x, 1, n - 1);
    }
  }

  // Is none of the selected rows the target or one of its ancestors?
  method OffTheWalk(d: Service, user: Id, ids: seq<Id>, target: Option<Id>) returns (yes: bool)
    requires d.Ok() && Acyclic(d.rows)
    ensures yes <==> Clear(d.rows, Selected(d.rows, user, ids), target)
  {
    hide UniqueNames, UniqueHashes, Shaped, ObjectsExist, Acyclic, Above;
    if target.None? { return true; }
    ghost var moved := Selected(d.rows, user, ids);
    var cur := target;
    ghost var n := 0;
    while cur.Some?
      invariant Up(d.rows, target.value, n) == cur
      invariant forall k: nat :: k < n && Up(d.rows, target.value, k).Some? ==>
        Up(d.rows, target.value, k).value !in moved
      decreases cur.Some?, if cur.Some? then Above(d.rows, cur.value) else {}
    {
      if cur.value in Selected(d.rows, user, ids) { return false; }
      if cur.value in d.rows && d.rows[cur.value].parent.Some? {
        AboveShrinks(d.rows, cur.value, d.rows[cur.value].parent.value);
      }
      cur := if cur.value in d.rows then d.rows[cur.value].parent else None;
      n := n + 1;
    }
    forall k: nat | k >= n ensures Up(d.rows, target.value, k).None? {
      if Up(d.rows, target.value, k).Some? { UpPrefix(d.rows, target.value, n, k); }
    }
    return true;
  }

  // Would this move be carried out and close a cycle? These are the moves of a hidden
  // ancestor, and no others.
  method ClosesCycle(d: Service, user: Id, ids: seq<Id>, target: Option<Id>) returns (yes: bool)
    requires d.Ok() && Acyclic(d.rows) && d.reliable
    ensures yes <==> MoveAllowed(d.rows, user, ids, target) && !Clear(d.rows, Selected(d.rows, user, ids), target)
    ensures yes && target != Some(0) ==> exists m :: m in ids && HiddenAncestor(d.rows, user, target, m)
  {
    hide Schema, Acyclic, Clear, GuardPasses, MoveFits, HiddenAncestor;
    var off := OffTheWalk(d, user, ids, target);
    var pass := d.MoveGuard(user, ids, target);
    yes := pass && !off && MoveFits(d.rows, user, ids, target);
    if pass && target != Some(0) { GuardLeavesHidden(d.rows, user, ids, target, Selected(d.rows, user, ids)); }
  }

  // Does the target lie outside everything a copy of these sources would visit?
  method OutsideSources(d: Service, user: Id, ids: seq<Id>, target: Option<Id>) returns (yes: bool)
    requires d.Ok() && Acyclic(d.rows)
    ensures yes <==> (target.Some? ==> target.value !in Zone(d.rows, user, Selected(d.rows, user, ids)))
  {
    hide UniqueNames, UniqueHashes, Shaped, ObjectsExist, Acyclic, Above, ProperlyUnder;
    if target.None? || target.value !in d.rows { return true; }
    ghost var t, v, x := d.rows, LiveOf(user), target.value;
    var cur := target.value;
    ghost var n := 0;
    while true
      invariant cur in t && Up(t, x, n) == Some(cur)
      invariant forall k: nat :: k < n && Up(t, x, k).Some? ==> Up(t, x, k).value !in Selected(t, user, ids)
      invariant forall f, m: nat :: Path(t, v, cur, f, m) ==> Path(t, v, x, f, n + m)
      decreases Above(t, cur)
    {
      if cur in Selected(d.rows, user, ids) {
        assert Path(t, v, cur, cur, 0) && Path(t, v, x, cur, n + 0);
        assert x in Sub(t, v, cur);
        return false;
      }
      if !Sees(LiveOf(user), d.rows[cur]) || d.rows[cur].parent.None? || !d.rows[d.rows[cur].parent.value].isDir {
        forall f, m: nat | f in Selected(t, user, ids) ensures !Path(t, v, x, f, m) {
          if Path(t, v, x, f, m) {
            PathUp(t, v, x, f, m);
            if m > n { PathSplit(t, v, x, f, n, m); }
          }
        }
        return true;
      }
      var p := d.rows[cur].parent.value;
      AboveShrinks(t, cur, p);
      forall f, m: nat | Path(t, v, p, f, m) ensures Path(t, v, x, f, n + 1 + m) {
        assert Path(t, v, cur, f, m + 1);
        assert n + (m + 1) == n + 1 + m;
      }
      cur := p;
      n := n + 1;
    }
  }

  // After any run without infrastructure faults, every reference count is exact, every
  // object is in use, the rows form a forest and cached objects agree with their rows.
  // Folder pages agree too (`whole`) unless a copy or a deletion gave up after writing rows;
  // lookups are exact (`clean`) unless an upload of a new hash was rolled back; and every
  // row's content is there (`apart`) unless an upload wrote where an object of another hash
  // lies. Left out of the run are exactly the moves that would close a cycle, copies into one
  // of their own sources, and downloads whose object an earlier attempt stored.
  method Run(d: Service, ops: seq<Op>) returns (whole: bool, clean: bool, apart: bool)
    requires d.reliable && d.Ok() && Acyclic(d.rows) && Exact(d.rows, d.objs) && d.Cached()
    requires Placed(d.rows, d.objs, d.blobs)
    requires NoGhosts(d.objs, d.cache) && Coherent(d.rows, d.nextRow, d.pages, d.query)
    modifies d
    ensures d.Ok() && Acyclic(d.rows) && Exact(d.rows, d.objs) && d.Cached()
    ensures whole ==> Coherent(d.rows, d.nextRow, d.pages, d.query)
    ensures clean ==> NoGhosts(d.objs, d.cache)
    ensures apart ==> Placed(d.rows, d.objs, d.blobs) && forall o :: o in d.objs ==> d.objs[o].loc in d.blobs
  {
    hide Schema, Acyclic, Exact, Safe, CacheOk, NoGhosts, Coherent, CoherentExcept, SafeFrom, Zone, Selected, Sub;
    hide Placed;
    hide AncestorsLive, Clear, MoveAllowed, CopyAllowed, CopyDone, GrownUnder, PlaceFree, HashTaken, FolderView;
    hide Emptied, Added;
    hide PathOpen, NoneAt, StoredByHash, StoredByPath, OthersKeep, AllKeep, GhostFor, FoldersOnly, PagesStand;
    hide DeletionTouches;
    whole, clean, apart := true, true, true;
    for i := 0 to |ops|
      invariant d.Ok() && Acyclic(d.rows) && Exact(d.rows, d.objs) && d.Cached()
      invariant whole ==> Coherent(d.rows, d.nextRow, d.pages, d.query)
      invariant clean ==> NoGhosts(d.objs, d.cache)
      invariant apart ==> Placed(d.rows, d.objs, d.blobs)
    {
      ExactIsSafe(d.rows, d.objs);
      var before := d.rows;
      match ops[i]
      case FastUpload(user, parentId, name, size, hash) =>
        var r := d.FastUpload(user, parentId, name, size, hash);
      case MultiPartInit(user, parentId, name, hash) =>
        var r := d.MultiPartFileInit(user, parentId, name, hash);
      case Complete(user, userName, parentId, name, hash, size, data) =>
        var taken, open := HashTaken(d.objs, hash), NoneAt(d.objs, Loc(d.bucket, BuildObjectName(userName, hash)));
        var id, _ := d.CompleteFile(user, userName, parentId, name, hash, size, data);
        clean, apart := clean && (id.Some? || taken), apart && (taken || open);
      case DirectUpload(user, loc, size, name, hash, data) =>
        var id := d.MinioUploadFile(user, loc, size, name, hash, data);
      case UrlUpload(user, userName, token, size, parent, name, data) =>
        var taken, open := HashTaken(d.objs, token), NoneAt(d.objs, Loc(d.bucket, BuildObjectName(userName, token)));
        var id := d.UploadFromURL(user, userName, token, size, parent, name, data);
        clean, apart := clean && (id.Some? || taken), apart && open;
      case StoreDownload(user, userName, token, size, name, data) =>
        var taken, open := HashTaken(d.objs, token), NoneAt(d.objs, Loc(d.bucket, BuildObjectName(userName, token)));
        if !taken {
          var faults: StoreFaults := *;
          var id := d.FinishDownload(user, userName, token, size, name, data, faults);
          apart := apart && open;
        }
      case NewFolder(user, parent, name) =>
        var id := d.CreateFolder(user, parent, name);
      case Recycle(user, file) =>
        var ok := d.MoveToRecycle(user, file);
      case BatchRecycle(user, ids) =>
        var ok, _ := d.BatchMoveToRecycle(user, ids);
      case Restore(user, file) =>
        var ok := d.RestoreFile(user, file);
      case Rename(user, file, name) =>
        var ok := d.RenameFile(user, file, name);
      case Move(user, ids, target) =>
        var closes := ClosesCycle(d, user, ids, target);
        if !closes { var ok, _ := d.MoveFiles(user, ids, target); }
      case Copy(user, ids, target) =>
        var outside := OutsideSources(d, user, ids, target);
        if outside {
          var ok, _, _ := d.CopyFiles(user, ids, target);
          whole := whole && (ok || d.rows == before);
        }
      case Delete(user, file) =>
        var ok, _ := d.DeleteFileRecord(user, file);
        whole := whole && (ok || d.rows == before);
      case List(user, parent, req) =>
        var page := d.GetFileList(user, parent, req);
      case LookupById(id) =>
        var r := d.GetFileObjectById(id);
      case LookupByHash(hash) =>
        var r := d.GetFileObjectByHash(hash);
      case LookupByPath(loc) =>
        var r := d.GetFileByObject(loc);
      case Expire(keys, ids, hashes, paths) =>
        d.Expire(keys, ids, hashes, paths);
    }
    if apart { AllContentThere(d.rows, d.objs, d.blobs); }
  }
}
