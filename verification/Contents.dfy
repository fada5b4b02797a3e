// Where the content of stored objects lies, and which uploads may disturb it.

module Contents {
  import opened Wrappers
  import opened Forest
  import opened References
  import opened Decimals
  import opened ObjectNames

  type Blobs = map<Loc, Bytes>

  // Different objects have different locations. Nothing in the database enforces it.
  ghost predicate UniqueLocs(objs: Objects) {
    forall o, p :: o in objs && p in objs && objs[o].loc == objs[p].loc ==> o == p
  }

  // Every row's content is there.
  ghost predicate ContentThere(t: Table, objs: Objects, blobs: Blobs) {
    forall i :: i in t && t[i].obj.Some? ==> t[i].obj.value in objs && objs[t[i].obj.value].loc in blobs
  }

  ghost predicate Placed(t: Table, objs: Objects, blobs: Blobs) {
    UniqueLocs(objs) && ContentThere(t, objs, blobs)
  }

  predicate NoneAt(objs: Objects, l: Loc) {
    forall o :: o in objs ==> objs[o].loc != l
  }

  // No object of another hash lies at the location.
  predicate NoOtherAt(objs: Objects, hash: string, l: Loc) {
    forall o :: o in objs && objs[o].hash != hash ==> objs[o].loc != l
  }

  predicate HashTaken(objs: Objects, hash: string) {
    exists o :: o in objs && objs[o].hash == hash
  }

  // Wherever an upload of this hash by this user may write, no object of another hash lies.
  predicate PathOpen(objs: Objects, bucket: string, userName: string, hash: string) {
    && (forall o :: o in objs && objs[o].hash == hash ==> NoOtherAt(objs, hash, Loc(bucket, objs[o].loc.path)))
    && (!HashTaken(objs, hash) ==> NoOtherAt(objs, hash, Loc(bucket, BuildObjectName(userName, hash))))
  }

  // Rows whose object has another hash keep their content.
  ghost predicate OthersKeep(t: Table, objs: Objects, before: Blobs, after: Blobs, hash: string) {
    forall i :: i in t && t[i].obj.Some? && t[i].obj.value in objs && objs[t[i].obj.value].hash != hash ==>
      var l := objs[t[i].obj.value].loc;
      l in before ==> l in after && after[l] == before[l]
  }

  ghost predicate Submap<K, V>(less: map<K, V>, more: map<K, V>) {
    forall k :: k in less ==> k in more && less[k] == more[k]
  }

  ghost predicate HasHolder(t: Table, o: Id) {
    exists i :: i in t && t[i].obj == Some(o)
  }

  ghost predicate SameButCounts(before: Objects, after: Objects) {
    before.Keys == after.Keys && forall o :: o in after ==> after[o].(refCount := 0) == before[o].(refCount := 0)
  }

  // All rows keep their content.
  ghost predicate AllKeep(t: Table, objs: Objects, before: Blobs, after: Blobs) {
    forall i :: i in t && t[i].obj.Some? && t[i].obj.value in objs ==>
      var l := objs[t[i].obj.value].loc;
      l in before ==> l in after && after[l] == before[l]
  }

  lemma OthersKeepAll(t: Table, objs: Objects, blobs: Blobs, hash: string)
    ensures OthersKeep(t, objs, blobs, blobs, hash) && AllKeep(t, objs, blobs, blobs)
  {}

  // Writes that name no new object and leave blobs alone.
  lemma RowsStayPlaced(t: Table, objs: Objects, t': Table, objs': Objects, blobs: Blobs)
    requires Placed(t, objs, blobs) && SameButCounts(objs, objs')
    requires forall i :: i in t' && t'[i].obj.Some? ==> HasHolder(t, t'[i].obj.value)
    ensures Placed(t', objs', blobs)
  {}

  lemma UpdateStaysPlaced(t: Table, objs: Objects, t': Table, blobs: Blobs)
    requires t.Keys == t'.Keys && forall i :: i in t ==> t[i].obj == t'[i].obj
    ensures Placed(t, objs, blobs) ==> Placed(t', objs, blobs)
  {}

  lemma FolderStaysPlaced(t: Table, objs: Objects, n: Id, r: Row, blobs: Blobs)
    requires n !in t && r.obj == None
    ensures Placed(t, objs, blobs) ==> Placed(t[n := r], objs, blobs)
  {}

  // A row for an object whose content is there.
  lemma RowStaysPlaced(t: Table, objs: Objects, n: Id, r: Row, o: Id, blobs: Blobs)
    requires n !in t && r.obj == Some(o) && o in objs && objs[o].loc in blobs
    ensures Placed(t, objs, blobs) ==> Placed(t[n := r], objs, blobs)
  {}

  lemma CountStaysPlaced(t: Table, objs: Objects, o: Id, d: int, blobs: Blobs)
    ensures Placed(t, objs, blobs) ==> Placed(t, Recounted(objs, o, d), blobs)
    ensures Recounted(Recounted(objs, o, d), o, -d) == objs
  {}

  lemma RecountKeepsPlace(objs: Objects, o: Id, d: int)
    ensures Recounted(objs, o, d).Keys == objs.Keys
    ensures forall p :: p in objs ==> Recounted(objs, o, d)[p].loc == objs[p].loc
  {}

  lemma FewerRowsStayPlaced(t: Table, objs: Objects, t': Table, blobs: Blobs)
    requires forall i :: i in t' ==> i in t && t'[i] == t[i]
    ensures Placed(t, objs, blobs) ==> Placed(t', objs, blobs)
  {}

  // Removing an object that no row uses, with its blob: the others keep theirs because no
  // two objects share a location.
  lemma RemovalStaysPlaced(t: Table, objs: Objects, o: Id, blobs: Blobs)
    requires o in objs && Unused(t, o)
    ensures Placed(t, objs, blobs) ==>
      Placed(t, objs, blobs - {objs[o].loc}) && Placed(t, objs - {o}, blobs - {objs[o].loc})
    ensures Placed(t, objs, blobs) ==> Placed(t, objs - {o}, blobs)
  {}

  // With exact counts every object is in use, and so its content is there.
  lemma AllContentThere(t: Table, objs: Objects, blobs: Blobs)
    requires Exact(t, objs) && Placed(t, objs, blobs)
    ensures forall o :: o in objs ==> objs[o].loc in blobs
  {
    forall o | o in objs ensures objs[o].loc in blobs {
      UnusedIff(t, o);
      var i :| i in t && t[i].obj == Some(o);
    }
  }

  lemma ResizeStaysPlaced(t: Table, objs: Objects, o: Id, x: Obj, blobs: Blobs)
    requires o in objs && x.loc == objs[o].loc
    ensures Placed(t, objs, blobs) ==> Placed(t, objs[o := x], blobs)
  {}

  // Writing where no other object lies, and taking it away again.
  lemma WriteStaysPlaced(t: Table, objs: Objects, hash: string, l: Loc, data: Bytes, blobs: Blobs)
    requires NoOtherAt(objs, hash, l)
    ensures Placed(t, objs, blobs) ==> Placed(t, objs, blobs[l := data])
    ensures OthersKeep(t, objs, blobs, blobs[l := data], hash)
    ensures OthersKeep(t, objs, blobs, blobs[l := data] - {l}, hash) && OthersKeep(t, objs, blobs, blobs - {l}, hash)
    ensures NoneAt(objs, l) ==>
      AllKeep(t, objs, blobs, blobs[l := data]) && AllKeep(t, objs, blobs, blobs[l := data] - {l})
    ensures NoneAt(objs, l) && Placed(t, objs, blobs) ==>
      Placed(t, objs, blobs - {l}) && Placed(t, objs, blobs[l := data] - {l})
  {}

  // Moving an object to where its content was just written.
  lemma RelocateStaysPlaced(t: Table, objs: Objects, o: Id, x: Obj, blobs: Blobs)
    requires o in objs && x.hash == objs[o].hash && UniqueHashes(objs) && NoOtherAt(objs, x.hash, x.loc)
    requires x.loc in blobs
    ensures Placed(t, objs, blobs) ==> Placed(t, objs[o := x], blobs)
  {}

  // A new object keeps locations apart exactly when nothing lies at its own.
  lemma NewObjectPlacedIff(t: Table, objs: Objects, o: Id, x: Obj, blobs: Blobs)
    requires o !in objs && Placed(t, objs, blobs)
    ensures Placed(t, objs[o := x], blobs) <==> NoneAt(objs, x.loc)
  {
    if !NoneAt(objs, x.loc) {
      var p :| p in objs && objs[p].loc == x.loc;
      assert objs[o := x][p].loc == objs[o := x][o].loc;
    }
  }

  // A new object with its first row, where nothing else lies.
  lemma StoredPlaced(t: Table, objs: Objects, n: Id, r: Row, o: Id, x: Obj, blobs: Blobs)
    requires n !in t && r.obj == Some(o) && o !in objs
    ensures Placed(t, objs, blobs) && x.loc in blobs && NoneAt(objs, x.loc) ==> Placed(t[n := r], objs[o := x], blobs)
    ensures !NoneAt(objs, x.loc) ==> !Placed(t[n := r], objs[o := x], blobs)
  {
    if p :| p in objs && objs[p].loc == x.loc {
      assert objs[o := x][p].loc == objs[o := x][o].loc;
    }
  }

  // The same given up again, wholly or in part.
  lemma RolledBackPlaced(t: Table, objs: Objects, o: Id, x: Obj, blobs: Blobs)
    requires o !in objs
    ensures Placed(t, objs, blobs) && NoneAt(objs, x.loc) ==>
      && Placed(t, objs[o := x], blobs) && Placed(t, objs[o := x], blobs - {x.loc}) && Placed(t, objs, blobs - {x.loc})
    ensures Exact(t, objs) && !NoneAt(objs, x.loc) ==> !Placed(t, objs, blobs - {x.loc})
    ensures objs[o := x] - {o} == objs
  {
    if Exact(t, objs) && !NoneAt(objs, x.loc) { LostContentShows(t, objs, x.loc, blobs - {x.loc}); }
  }

  // Content taken away under an object in use is missed.
  lemma LostContentShows(t: Table, objs: Objects, l: Loc, blobs: Blobs)
    requires Exact(t, objs) && !NoneAt(objs, l) && l !in blobs
    ensures !Placed(t, objs, blobs)
  {
    var o :| o in objs && objs[o].loc == l;
    UnusedIff(t, o);
    var i :| i in t && t[i].obj == Some(o);
  }

  lemma FreeHash(objs: Objects, hash: string, l: Loc)
    requires !HashTaken(objs, hash)
    ensures NoOtherAt(objs, hash, l) <==> NoneAt(objs, l)
  {}

  // Object names of users whose names hold no slash never meet.
  lemma ObjectNameInjective(u: string, h: string, u': string, h': string)
    requires Free('/', u) && Free('/', u') && BuildObjectName(u, h) == BuildObjectName(u', h')
    ensures u == u' && h == h'
  {
    var prefix := "files/";
    assert BuildObjectName(u, h)[|prefix|..] == u + ['/'] + h;
    assert BuildObjectName(u', h')[|prefix|..] == u' + ['/'] + h';
    SplitAtFirst(u, h, u', h', '/');
  }

  // Every object lies under its owner's name and its own hash, in one bucket.
  ghost predicate AtOwnName(objs: Objects, bucket: string, nameOf: Id -> string) {
    forall o :: o in objs ==> objs[o].loc == Loc(bucket, BuildObjectName(nameOf(objs[o].owner), objs[o].hash))
  }

  // Where user names hold no slash and objects lie under their own names, locations are
  // unique and every path is open.
  lemma OwnNamesKeepPathsOpen(objs: Objects, bucket: string, nameOf: Id -> string, user: Id, hash: string)
    requires AtOwnName(objs, bucket, nameOf) && UniqueHashes(objs)
    requires Free('/', nameOf(user)) && forall o :: o in objs ==> Free('/', nameOf(objs[o].owner))
    ensures UniqueLocs(objs) && PathOpen(objs, bucket, nameOf(user), hash)
  {
    hide BuildObjectName, Free;
    forall o, p | o in objs && p in objs && objs[o].loc == objs[p].loc ensures objs[o].hash == objs[p].hash {
      ObjectNameInjective(nameOf(objs[o].owner), objs[o].hash, nameOf(objs[p].owner), objs[p].hash);
    }
    forall o | o in objs && objs[o].loc == Loc(bucket, BuildObjectName(nameOf(user), hash))
      ensures objs[o].hash == hash
    {
      ObjectNameInjective(nameOf(objs[o].owner), objs[o].hash, nameOf(user), hash);
    }
  }
}
