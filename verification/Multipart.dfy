// Multipart upload: sessions, chunk rows and chunk blobs on the server, and the web
// client's loop that cuts a file, resumes, and asks for completion.

module Multipart {
  import opened Wrappers
  import opened Decimals
  import opened Slices
  import opened ObjectNames

  type Id = nat

  datatype Session = Session(
    uploadId: string, user: Id, hash: string, fileSize: int, chunkSize: int, totalChunks: int)

  datatype ChunkRow = ChunkRow(path: string, size: nat)

  // Chunk rows by upload and index, which is their unique index.
  type ChunkTable = map<(string, nat), ChunkRow>

  type Blobs = map<string, Bytes>

  datatype Reply = Done | BadRequest | NotFound | Forbidden | OutOfRange | Mismatch | Incomplete | Failed

  function ChunkPath(uploadId: string, index: nat): string {
    "chunks/" + uploadId + "/" + NatText(index)
  }

  predicate IsChunkPath(path: string) {
    "chunks/" <= path
  }

  // Two chunks never share a blob, whatever the upload ids contain.
  lemma ChunkPathInjective(a: string, i: nat, b: string, j: nat)
    requires ChunkPath(a, i) == ChunkPath(b, j)
    ensures a == b && i == j
  {
    var x, y := NatText(i), NatText(j);
    var p := "chunks/" + a;
    var q := "chunks/" + b;
    NumbersAreFree(i, '/');
    NumbersAreFree(j, '/');
    assert p + "/" + x == ChunkPath(a, i) && q + "/" + y == ChunkPath(b, j);
    SplitAtLast(p, x, q, y);
    assert p[|"chunks/"|..] == a && q[|"chunks/"|..] == b;
    NatTextInjective(i, j);
  }

  lemma PathsApart(uploadId: string, i: nat, userName: string, hash: string)
    ensures IsChunkPath(ChunkPath(uploadId, i)) && !IsChunkPath(BuildObjectName(userName, hash))
  {
    assert BuildObjectName(userName, hash)[0] == 'f';
    assert "chunks/"[0] == 'c';
  }

  // The newest session of a user for a hash, among those with an id below k.
  function Latest(sessions: map<Id, Session>, user: Id, hash: string, k: nat): (r: Option<Id>)
    ensures r.Some? ==> r.value in sessions && r.value < k
    ensures r.Some? ==> sessions[r.value].user == user && sessions[r.value].hash == hash
    ensures forall s :: s in sessions && s < k && sessions[s].user == user && sessions[s].hash == hash ==>
      r.Some? && s <= r.value
  {
    if k == 0 then None
    else if k - 1 in sessions && Matches(sessions[k - 1], user, hash) then Some(k - 1)
    else Latest(sessions, user, hash, k - 1)
  }

  predicate Matches(s: Session, user: Id, hash: string) {
    s.user == user && s.hash == hash
  }

  ghost function SessionOf(sessions: map<Id, Session>, uploadId: string): (r: Option<Id>)
    ensures r.Some? ==> r.value in sessions && sessions[r.value].uploadId == uploadId
    ensures r == None ==> forall s :: s in sessions ==> sessions[s].uploadId != uploadId
  {
    if s :| s in sessions && sessions[s].uploadId == uploadId then Some(s) else None
  }

  // What the guards say about a chunk.
  ghost function Verdict(sessions: map<Id, Session>, user: Id, uploadId: string, index: int): Reply {
    if uploadId == "" then BadRequest
    else match SessionOf(sessions, uploadId)
      case None => NotFound
      case Some(s) =>
        if sessions[s].user != user then Forbidden
        else if 0 <= index < sessions[s].totalChunks then Done
        else OutOfRange
  }

  ghost predicate SessionsOk(sessions: map<Id, Session>, nextId: nat) {
    && (forall s :: s in sessions ==> s < nextId && sessions[s].uploadId != "")
    && (forall s, t :: s in sessions && t in sessions && sessions[s].uploadId == sessions[t].uploadId ==> s == t)
  }

  // Chunk rows lie within their session's range, at their own path.
  ghost predicate ChunksOk(sessions: map<Id, Session>, chunks: ChunkTable) {
    && (forall k, s :: k in chunks && s in sessions && sessions[s].uploadId == k.0 ==> k.1 < sessions[s].totalChunks)
    && (forall k :: k in chunks ==> chunks[k].path == ChunkPath(k.0, k.1))
  }

  lemma ChunkStored(sessions: map<Id, Session>, nextId: nat, chunks: ChunkTable, s: Id, index: nat, size: nat)
    requires SessionsOk(sessions, nextId) && ChunksOk(sessions, chunks) && s in sessions
    requires index < sessions[s].totalChunks
    ensures var u := sessions[s].uploadId; ChunksOk(sessions, chunks[(u, index) := ChunkRow(ChunkPath(u, index), size)])
  {
    hide ChunkPath;
  }

  lemma SessionOpened(sessions: map<Id, Session>, nextId: nat, chunks: ChunkTable, s: Session)
    requires SessionsOk(sessions, nextId) && ChunksOk(sessions, chunks) && s.uploadId != ""
    requires (forall t :: t in sessions ==> sessions[t].uploadId != s.uploadId) && forall k :: k in chunks ==>
      k.0 != s.uploadId
    ensures SessionsOk(sessions[nextId := s], nextId + 1) && ChunksOk(sessions[nextId := s], chunks)
    ensures Indices(chunks, s.uploadId) == {}
    ensures Latest(sessions[nextId := s], s.user, s.hash, nextId + 1) == Some(nextId)
  {
    hide ChunkPath;
  }

  function WithoutUpload(chunks: ChunkTable, uploadId: string): (r: ChunkTable)
    ensures Indices(r, uploadId) == {}
  {
    map k | k in chunks && k.0 != uploadId :: chunks[k]
  }

  lemma SessionClosed(sessions: map<Id, Session>, nextId: nat, chunks: ChunkTable, s: Id, uploadId: string)
    requires SessionsOk(sessions, nextId) && ChunksOk(sessions, chunks)
    ensures SessionsOk(sessions - {s}, nextId)
    ensures ChunksOk(sessions, WithoutUpload(chunks, uploadId))
    ensures ChunksOk(sessions - {s}, chunks) && ChunksOk(sessions - {s}, WithoutUpload(chunks, uploadId))
  {
    hide ChunkPath;
  }

  function Indices(chunks: ChunkTable, uploadId: string): set<nat> {
    set k | k in chunks && k.0 == uploadId :: k.1
  }

  // What compose writes: the sources one after the other.
  function Composed(blobs: Blobs, uploadId: string, indices: seq<nat>): Bytes
    requires forall i :: i in indices ==> ChunkPath(uploadId, i) in blobs
  {
    if indices == [] then []
    else Composed(blobs, uploadId, indices[..|indices| - 1]) + blobs[ChunkPath(uploadId, indices[|indices| - 1])]
  }

  predicate AllThere(blobs: Blobs, uploadId: string, indices: seq<nat>) {
    forall i :: i in indices ==> ChunkPath(uploadId, i) in blobs
  }

  // Chunk blobs of the upload that are there are pieces of the file, all cut with one size.
  ghost predicate HoldsChunks(blobs: Blobs, uploadId: string, file: Bytes, chunkSize: nat) {
    forall i: nat :: ChunkPath(uploadId, i) in blobs ==> blobs[ChunkPath(uploadId, i)] == Chunk(file, chunkSize, i)
  }

  lemma {:induction false} ComposedIsConcat(blobs: Blobs, uploadId: string, file: Bytes, chunkSize: nat, n: nat,
    indices: seq<nat>)
    requires HoldsChunks(blobs, uploadId, file, chunkSize) && AllThere(blobs, uploadId, indices)
    requires |indices| == n && forall k :: 0 <= k < n ==> indices[k] == k
    ensures Composed(blobs, uploadId, indices) == Concat(FirstChunks(file, chunkSize, n))
  {
    hide Chunk;
    if n > 0 {
      var most := indices[..n - 1];
      assert forall i :: i in most ==> i in indices;
      ComposedIsConcat(blobs, uploadId, file, chunkSize, n - 1, most);
      assert indices[n - 1] in indices;
      assert FirstChunks(file, chunkSize, n)[..n - 1] == FirstChunks(file, chunkSize, n - 1);
    }
  }

  // The pigeonhole step: as many distinct in-range chunks as announced are all of them.
  lemma CountMakesWhole(xs: set<nat>, n: nat)
    requires |xs| == n && forall i :: i in xs ==> i < n
    ensures forall k :: 0 <= k < n ==> Sorted(xs)[k] == k
    ensures forall i: nat :: i in xs <==> i < n
  {
    var r := Sorted(xs);
    assert forall k :: 0 <= k < |r| ==> r[k] in r;
    AscendingIsAll(r);
    forall i: nat | i < n ensures i in xs { assert r[i] in r; }
  }

  // The round trip: whatever order, repetition and interruption brought the chunks there,
  // if they were cut from one file with one chunk size and their number is the announced
  // one, then what completion composes is the file.
  lemma ComposedIsTheFile(blobs: Blobs, chunks: ChunkTable, uploadId: string, file: Bytes, chunkSize: nat)
    requires chunkSize > 0 && HoldsChunks(blobs, uploadId, file, chunkSize)
    requires var xs := Indices(chunks, uploadId); var n := TotalChunks(|file|, chunkSize);
      |xs| == n && (forall i :: i in xs ==> i < n) && AllThere(blobs, uploadId, Sorted(xs))
    ensures Composed(blobs, uploadId, Sorted(Indices(chunks, uploadId))) == file
  {
    var xs, n := Indices(chunks, uploadId), TotalChunks(|file|, chunkSize);
    CountMakesWhole(xs, n);
    ComposedIsConcat(blobs, uploadId, file, chunkSize, n, Sorted(xs));
    CutAndJoin(file, chunkSize);
  }

  class Server {
    const reliable: bool
    var sessions: map<Id, Session>
    var nextId: nat
    var chunks: ChunkTable
    var blobs: Blobs

    ghost predicate Valid() reads this {
      SessionsOk(sessions, nextId) && ChunksOk(sessions, chunks)
    }

    // A new upload id is random: nothing carries it yet.
    ghost predicate Unseen(token: string) reads this {
      && token != ""
      && (forall s :: s in sessions ==> sessions[s].uploadId != token)
      && (forall k :: k in chunks ==> k.0 != token)
      && (forall i :: ChunkPath(token, i) !in blobs)
    }

    constructor (reliable: bool)
      ensures Valid() && sessions == map[] && chunks == map[] && blobs == map[] && nextId == 0
      ensures this.reliable == reliable
    {
      this.reliable := reliable;
      sessions, nextId, chunks, blobs := map[], 0, map[], map[];
    }

    // The upload branch of initialisation: resume the newest session if it has chunks, else
    // open one. The id is empty when it cannot be read back.
    method Init(user: Id, hash: string, fileSize: int, chunkSize: int, totalChunks: int, token: string)
      returns (r: Option<(string, set<nat>)>)
      requires Valid() && Unseen(token)
      modifies `sessions, `nextId
      ensures Valid()
      ensures reliable ==> r.Some? && r.value.0 != ""
      ensures var was := Latest(old(sessions), user, hash, old(nextId));
        var up := if was.Some? then Indices(chunks, old(sessions)[was.value].uploadId) else {};
        && (r.Some? && up != {} ==> sessions == old(sessions) && nextId == old(nextId))
        && (r.Some? && up == {} ==>
            && sessions == old(sessions)[old(nextId) := Session(token, user, hash, fileSize, chunkSize, totalChunks)]
            && Latest(sessions, user, hash, nextId) == Some(old(nextId)))
        && (r == None ==> sessions == old(sessions))
      ensures r.Some? ==> var now := Latest(sessions, user, hash, nextId);
        && now.Some? && r.value.0 in {"", sessions[now.value].uploadId}
        && r.value.1 == Indices(chunks, sessions[now.value].uploadId)
    {
      assert forall s :: s in sessions ==> sessions[s].uploadId != "";
      hide ChunkPath, SessionsOk, ChunksOk, Latest, Indices;
      var f := Fault(reliable);
      if f { return None; }
      var latest := Latest(sessions, user, hash, nextId);
      var uploaded := if latest.Some? then Indices(chunks, sessions[latest.value].uploadId) else {};
      if uploaded == {} {
        f := Fault(reliable);
        if f { return None; }
        var session := Session(token, user, hash, fileSize, chunkSize, totalChunks);
        SessionOpened(sessions, nextId, chunks, session);
        sessions := sessions[nextId := session];
        nextId := nextId + 1;
      }
      f := Fault(reliable);
      latest := Latest(sessions, user, hash, nextId);
      return Some((if f || latest == None then "" else sessions[latest.value].uploadId, uploaded));
    }

    // Storing a chunk: the blob first, then the row. Sending one again replaces it.
    method UploadChunk(user: Id, uploadId: string, index: int, data: Bytes) returns (r: Reply)
      requires Valid()
      modifies `chunks, `blobs
      ensures Valid()
      ensures var v := Verdict(sessions, user, uploadId, index);
        r == v || (!reliable && ((r == NotFound && v != BadRequest) || (r == Failed && v == Done)))
      ensures r !in {Done, Failed} ==> chunks == old(chunks) && blobs == old(blobs)
      ensures r == Failed ==> chunks == old(chunks)
      ensures r in {Done, Failed} ==> 0 <= index
      ensures r == Failed ==> blobs == old(blobs) || blobs == old(blobs)[ChunkPath(uploadId, index) := data]
      ensures r == Done ==>
        && chunks == old(chunks)[(uploadId, index) := ChunkRow(ChunkPath(uploadId, index), |data|)]
        && blobs == old(blobs)[ChunkPath(uploadId, index) := data]
    {
      hide ChunkPath, ChunksOk;
      if uploadId == "" { return BadRequest; }
      var f := Fault(reliable);
      if f { return NotFound; }
      if s :| s in sessions && sessions[s].uploadId == uploadId {
        if sessions[s].user != user { return Forbidden; }
        if index < 0 || index >= sessions[s].totalChunks { return OutOfRange; }
        var path := ChunkPath(uploadId, index);
        f := Fault(reliable);
        if f { return Failed; }
        blobs := blobs[path := data];
        f := Fault(reliable);
        if f { return Failed; }
        ChunkStored(sessions, nextId, chunks, s, index, |data|);
        chunks := chunks[(uploadId, index) := ChunkRow(path, |data|)];
        return Done;
      }
      return NotFound;
    }

    // Writes the object from the chunks of the upload.
    method WriteObject(dst: string, uploadId: string, indices: seq<nat>, totalChunks: int, fileSize: int)
      returns (ok: bool)
      modifies `blobs
      ensures !ok ==> blobs == old(blobs)
      ensures ok && totalChunks == 0 ==> fileSize == 0 && blobs == old(blobs)[dst := []]
      ensures ok && totalChunks != 0 ==>
        AllThere(old(blobs), uploadId, indices) && blobs == old(blobs)[dst := Composed(old(blobs), uploadId, indices)]
      ensures reliable && !ok ==>
        if totalChunks == 0 then fileSize != 0 else !AllThere(old(blobs), uploadId, indices)
    {
      var f := Fault(reliable);
      if totalChunks == 0 {
        if fileSize != 0 || f { return false; }
        blobs := blobs[dst := []];
        return true;
      }
      if f || !AllThere(blobs, uploadId, indices) { return false; }
      blobs := blobs[dst := Composed(blobs, uploadId, indices)];
      return true;
    }

    method RemoveChunkBlobs(uploadId: string, indices: seq<nat>)
      modifies `blobs
      ensures forall p :: p in blobs ==> p in old(blobs) && blobs[p] == old(blobs)[p]
      ensures forall p :: p in old(blobs) && !IsChunkPath(p) ==> p in blobs
      ensures reliable ==> forall j :: 0 <= j < |indices| ==> ChunkPath(uploadId, indices[j]) !in blobs
    {
      hide IsChunkPath, ChunkPath;
      for k := 0 to |indices|
        invariant forall p :: p in blobs ==> p in old(blobs) && blobs[p] == old(blobs)[p]
        invariant forall p :: p in old(blobs) && !IsChunkPath(p) ==> p in blobs
        invariant reliable ==> forall j :: 0 <= j < k ==> ChunkPath(uploadId, indices[j]) !in blobs
      {
        PathsApart(uploadId, indices[k], "", "");
        var f := Fault(reliable);
        if !f { blobs := blobs - {ChunkPath(uploadId, indices[k])}; }
      }
    }

    // Best-effort removal of chunk blobs, chunk rows and session.
    method CleanupUploadData(s: Id, indices: seq<nat>)
      requires Valid() && s in sessions
      modifies `blobs, `chunks, `sessions
      ensures Valid()
      ensures sessions == old(sessions) || sessions == old(sessions) - {s}
      ensures forall p :: p in blobs ==> p in old(blobs) && blobs[p] == old(blobs)[p]
      ensures forall p :: p in old(blobs) && !IsChunkPath(p) ==> p in blobs
      ensures reliable ==> Indices(chunks, old(sessions)[s].uploadId) == {} && sessions == old(sessions) - {s}
      ensures reliable ==> forall j :: 0 <= j < |indices| ==> ChunkPath(old(sessions)[s].uploadId, indices[j]) !in blobs
    {
      hide IsChunkPath, ChunkPath, SessionsOk, ChunksOk;
      var uploadId := sessions[s].uploadId;
      SessionClosed(sessions, nextId, chunks, s, uploadId);
      RemoveChunkBlobs(uploadId, indices);
      var f := Fault(reliable);
      if f { return; }
      f := Fault(reliable);
      if !f { chunks := WithoutUpload(chunks, uploadId); }
      f := Fault(reliable);
      if !f { sessions := sessions - {s}; }
    }

    // Composing the object and, once its rows are written, cleaning up. `existing` is the name
    // of the object that has this hash, if any; rows of objects and files are not kept here.
    method CompleteFile(user: Id, userName: string, hash: string, total: int, fileSize: int, existing: Option<string>,
      rowFails: bool) returns (r: Reply)
      requires Valid()
      modifies `blobs, `chunks, `sessions
      ensures Valid() && r in {Done, NotFound, Incomplete, Failed}
      ensures r == NotFound ==> Latest(old(sessions), user, hash, nextId) == None
      ensures var latest := Latest(old(sessions), user, hash, nextId);
        if latest == None then r == NotFound
        else FileCompleted(old(sessions)[latest.value], old(chunks), old(blobs), blobs, total, existing,
          Target(userName, hash, existing), r)
      ensures reliable ==> var latest := Latest(old(sessions), user, hash, nextId);
        r ==
          if latest == None then NotFound
          else if |Indices(old(chunks), old(sessions)[latest.value].uploadId)| != total then Incomplete
          else if rowFails then Failed
          else if existing.Some? && existing.value in old(blobs) then Done
          else if CannotWrite(old(sessions), user, hash, nextId, old(chunks), old(blobs), total, fileSize) then Failed
          else Done
      ensures rowFails ==> r != Done
      ensures r != Done && existing.Some? ==> old(blobs).Keys <= blobs.Keys
      ensures r != Done && existing.Some? && existing.value in old(blobs) ==> blobs == old(blobs)
      ensures reliable && rowFails && existing == None && r == Failed ==>
        blobs == old(blobs) || Target(userName, hash, existing) !in blobs
      ensures r != Done ==> sessions == old(sessions) && chunks == old(chunks)
      ensures r in {NotFound, Incomplete} ==> blobs == old(blobs)
      ensures OnlyWrites(old(blobs), blobs, Target(userName, hash, existing))
    {
      hide ChunkPath, IsChunkPath, Composed, AllThere, Matches, BuildObjectName, SessionsOk, ChunksOk, Latest;
      hide Indices, Sorted;
      var f := Fault(reliable);
      var latest := Latest(sessions, user, hash, nextId);
      if latest == None { return NotFound; }
      if f { return Failed; }
      var uploadId := sessions[latest.value].uploadId;
      var indices := Sorted(Indices(chunks, uploadId));
      if |indices| != total { return Incomplete; }
      var target := Target(userName, hash, existing);
      if existing == None || target !in blobs {
        var ok := WriteObject(target, uploadId, indices, total, fileSize);
        if !ok { return Failed; }
      }
      if rowFails {
        f := Fault(reliable);
        if existing == None && !f { blobs := blobs - {target}; }
        return Failed;
      }
      CleanupUploadData(latest.value, indices);
      return Done;
    }

    // The handler's guards and defaults.
    method Guards(user: Id, hash: string, totalChunks: int, fileSize: int)
      returns (refused: Option<Reply>, total: int, size: int)
      ensures reliable ==> refused == match Latest(sessions, user, hash, nextId)
        case None => Some(NotFound)
        case Some(i) => if totalChunks <= 0 || totalChunks == sessions[i].totalChunks then None else Some(Mismatch)
      ensures refused in {None, Some(NotFound), Some(Mismatch)}
      ensures refused in {None, Some(Mismatch)} ==> var latest := Latest(sessions, user, hash, nextId);
        && latest.Some? && var s := sessions[latest.value];
        && (refused == None <==> totalChunks <= 0 || totalChunks == s.totalChunks)
        && (refused == None ==>
             && total == s.totalChunks
             && size == if fileSize > 0 || s.fileSize <= 0 then fileSize else s.fileSize)
    {
      refused, total, size := None, totalChunks, fileSize;
      var f := Fault(reliable);
      var latest := Latest(sessions, user, hash, nextId);
      if f || latest == None { return Some(NotFound), total, size; }
      var session := sessions[latest.value];
      if total <= 0 { total := session.totalChunks; }
      if total != session.totalChunks { return Some(Mismatch), total, size; }
      if size <= 0 && session.fileSize > 0 { size := session.fileSize; }
    }

    // The handler: guards, defaults, lock. A caller that finds the lock taken changes nothing.
    method Complete(user: Id, userName: string, hash: string, totalChunks: int, fileSize: int, existing: Option<string>,
      lockTaken: bool, rowFails: bool) returns (r: Reply)
      requires Valid()
      modifies `blobs, `chunks, `sessions
      ensures Valid() && r in {Done, NotFound, Mismatch, Incomplete, Failed}
      ensures reliable ==> var latest := Latest(old(sessions), user, hash, nextId);
        if latest == None then r == NotFound
        else
          var s := old(sessions)[latest.value];
          var size := if fileSize > 0 || s.fileSize <= 0 then fileSize else s.fileSize;
          r ==
            if totalChunks > 0 && totalChunks != s.totalChunks then Mismatch
            else if lockTaken then Failed
            else if |Indices(old(chunks), s.uploadId)| != s.totalChunks then Incomplete
            else if rowFails then Failed
            else if existing.Some? && existing.value in old(blobs) then Done
            else if CannotWrite(old(sessions), user, hash, nextId, old(chunks), old(blobs), s.totalChunks, size)
            then Failed
            else Done
      ensures lockTaken ==>
        r !in {Done, Incomplete} && blobs == old(blobs) && chunks == old(chunks) && sessions == old(sessions)
      ensures rowFails ==> r != Done
      ensures r != Done && existing.Some? ==> old(blobs).Keys <= blobs.Keys
      ensures r != Done && existing.Some? && existing.value in old(blobs) ==> blobs == old(blobs)
      ensures var latest := Latest(old(sessions), user, hash, nextId);
        if latest == None then r == NotFound
        else
          var s := old(sessions)[latest.value];
          && (totalChunks > 0 && totalChunks != s.totalChunks ==> r in {NotFound, Mismatch})
          && (r == Mismatch ==> totalChunks > 0 && totalChunks != s.totalChunks)
          && (r != Mismatch ==>
            FileCompleted(s, old(chunks), old(blobs), blobs, s.totalChunks, existing,
               Target(userName, hash, existing), r))
      ensures r != Done ==> sessions == old(sessions) && chunks == old(chunks)
      ensures r in {NotFound, Mismatch, Incomplete} ==> blobs == old(blobs)
      ensures OnlyWrites(old(blobs), blobs, Target(userName, hash, existing))
    {
      hide ChunkPath, IsChunkPath, Composed, AllThere, Matches, SessionsOk, ChunksOk, Target;
      var refused, total, size := Guards(user, hash, totalChunks, fileSize);
      if refused.Some? { return refused.value; }
      if lockTaken { return Failed; }
      r := CompleteFile(user, userName, hash, total, size, existing, rowFails);
    }
  }

  // The object cannot be composed: a chunk's blob is missing, or there are no chunks and the
  // size is not zero.
  ghost predicate CannotWrite(sessions: map<Id, Session>, user: Id, hash: string, nextId: nat, chunks: ChunkTable,
    blobs: Blobs, total: int, fileSize: int)
  {
    var latest := Latest(sessions, user, hash, nextId);
    latest.Some? &&
    if total == 0 then fileSize != 0
    else !AllThere(blobs, sessions[latest.value].uploadId, Sorted(Indices(chunks, sessions[latest.value].uploadId)))
  }

  function Target(userName: string, hash: string, existing: Option<string>): string {
    if existing.Some? then existing.value else BuildObjectName(userName, hash)
  }

  // Nothing but the target is written, and nothing but it and chunks is removed.
  ghost predicate OnlyWrites(before: Blobs, after: Blobs, target: string) {
    && (forall p :: p in after && p != target ==> p in before && after[p] == before[p])
    && (forall p :: p in before && p != target && !IsChunkPath(p) ==> p in after)
  }

  // When completion answers that chunks are missing, and what it writes when it is done.
  ghost predicate FileCompleted(s: Session, chunks: ChunkTable, before: Blobs, after: Blobs,
    total: int, existing: Option<string>, target: string, r: Reply)
  {
    var xs := Indices(chunks, s.uploadId);
    && (r == Incomplete ==> |xs| != total)
    && (r == Done ==> |xs| == total)
    && (r == Done && !IsChunkPath(target) ==> target in after)
    && (r == Done && !IsChunkPath(target) && !(existing.Some? && target in before) ==>
      if total == 0 then after[target] == []
      else AllThere(before, s.uploadId, Sorted(xs)) && after[target] == Composed(before, s.uploadId, Sorted(xs)))
  }

  // ---- The web client -----------------------------------------------------

  lemma StoringKeepsChunks(blobs: Blobs, uploadId: string, file: Bytes, chunkSize: nat, other: string,
    index: nat, data: Bytes)
    requires HoldsChunks(blobs, uploadId, file, chunkSize)
    requires other == uploadId ==> data == Chunk(file, chunkSize, index)
    ensures HoldsChunks(blobs[ChunkPath(other, index) := data], uploadId, file, chunkSize)
  {
    forall i: nat | ChunkPath(uploadId, i) == ChunkPath(other, index) ensures other == uploadId && i == index {
      ChunkPathInjective(uploadId, i, other, index);
    }
    hide ChunkPath, Chunk;
  }

  lemma {:induction false} RangeSize(xs: set<nat>, n: nat)
    requires forall i: nat :: i in xs <==> i < n
    ensures |xs| == n
  {
    if n == 0 {
      assert xs == {};
    } else {
      RangeSize(xs - {n - 1}, n - 1);
    }
  }

  // Storing a chunk adds its index to the upload's indices and no other.
  lemma StoredIndices(chunks: ChunkTable, uploadId: string, index: nat, row: ChunkRow, other: string)
    ensures Indices(chunks[(uploadId, index) := row], other) ==
      Indices(chunks, other) + if other == uploadId then {index} else {}
  {
    var after := chunks[(uploadId, index) := row];
    forall i: nat
      ensures i in Indices(after, other) <==> i in Indices(chunks, other) || (other == uploadId && i == index)
    {
      assert i in Indices(after, other) <==> (other, i) in after;
      assert i in Indices(chunks, other) <==> (other, i) in chunks;
    }
  }

  // Chunks of one file sent in any order, with repetitions, failures and other uploads in
  // between: the upload holds pieces of the file only, and of the indices that were stored
  // none is lost and none made up.
  method SendInAnyOrder(server: Server, user: Id, uploadId: string, file: Bytes, chunkSize: nat, order: seq<nat>)
    requires server.Valid() && HoldsChunks(server.blobs, uploadId, file, chunkSize)
    modifies server`chunks, server`blobs
    ensures server.Valid() && HoldsChunks(server.blobs, uploadId, file, chunkSize)
    ensures var was, now := Indices(old(server.chunks), uploadId), Indices(server.chunks, uploadId);
      && was <= now && now <= was + (set i | i in order)
      && (server.reliable ==>
           forall i :: i in order && Verdict(server.sessions, user, uploadId, i) == Done ==> i in now)
  {
    hide HoldsChunks, ChunkPath, Chunk, Indices, Verdict, SessionsOk, ChunksOk;
    ghost var was := Indices(server.chunks, uploadId);
    for k := 0 to |order|
      invariant server.Valid() && HoldsChunks(server.blobs, uploadId, file, chunkSize)
      invariant was <= Indices(server.chunks, uploadId) <= was + (set i | i in order[..k])
      invariant server.reliable ==>
        forall j :: 0 <= j < k && Verdict(server.sessions, user, uploadId, order[j]) == Done ==>
        order[j] in Indices(server.chunks, uploadId)
    {
      var otherUser: Id, other: string, at: nat, data: Bytes := *, *, *, *;
      if other != uploadId { SendOne(server, otherUser, other, at, data, uploadId, file, chunkSize); }
      SendOne(server, user, uploadId, order[k], Chunk(file, chunkSize, order[k]), uploadId, file, chunkSize);
      assert order[..k + 1] == order[..k] + [order[k]];
    }
    assert order[..|order|] == order;
  }

  method SendOne(server: Server, user: Id, other: string, index: nat, data: Bytes, ghost uploadId: string,
    ghost file: Bytes, ghost chunkSize: nat)
    requires server.Valid() && HoldsChunks(server.blobs, uploadId, file, chunkSize)
    requires other == uploadId ==> data == Chunk(file, chunkSize, index)
    modifies server`chunks, server`blobs
    ensures server.Valid() && HoldsChunks(server.blobs, uploadId, file, chunkSize)
    ensures Indices(server.chunks, uploadId) == Indices(old(server.chunks), uploadId)
      || (other == uploadId && Indices(server.chunks, uploadId) == Indices(old(server.chunks), uploadId) + {index})
    ensures server.reliable && other == uploadId && Verdict(server.sessions, user, other, index) == Done ==>
      index in Indices(server.chunks, uploadId)
  {
    hide HoldsChunks, ChunkPath, Chunk, Indices, Verdict, SessionsOk, ChunksOk;
    ghost var blobs, chunks := server.blobs, server.chunks;
    var r := server.UploadChunk(user, other, index, data);
    StoringKeepsChunks(blobs, uploadId, file, chunkSize, other, index, data);
    StoredIndices(chunks, other, index, ChunkRow(ChunkPath(other, index), |data|), uploadId);
  }

  // The client's loop over the indices the server does not have yet.
  method SendMissing(server: Server, user: Id, uploadId: string, uploaded: set<nat>, file: Bytes, chunkSize: nat,
    totalChunks: nat, lost: nat -> bool)
    returns (ok: bool)
    requires server.Valid() && HoldsChunks(server.blobs, uploadId, file, chunkSize)
    requires uploaded <= Indices(server.chunks, uploadId)
    modifies server`chunks, server`blobs
    ensures server.Valid() && HoldsChunks(server.blobs, uploadId, file, chunkSize)
    ensures ok ==> forall i: nat :: i < totalChunks ==> i in Indices(server.chunks, uploadId)
    ensures ok ==> forall i: nat :: i < totalChunks && i !in uploaded ==> ChunkPath(uploadId, i) in server.blobs
    ensures old(server.blobs).Keys <= server.blobs.Keys
    ensures server.reliable && Accepts(server.sessions, user, uploadId, totalChunks) && (forall i :: !lost(i)) ==> ok
    ensures forall p :: !IsChunkPath(p) ==> (p in server.blobs <==> p in old(server.blobs))
    ensures AllLeftAlone(old(server.chunks), old(server.blobs), server.chunks, server.blobs, uploadId,
      uploaded, totalChunks)
  {
    hide AllLeftAlone;
    NothingDone(server.chunks, server.blobs, uploadId, uploaded);
    hide HoldsChunks, ChunkPath, Chunk, Indices, Verdict, IsChunkPath, SessionsOk, ChunksOk;
    assert SentUpTo(server.chunks, server.blobs, uploadId, uploaded, 0);
    hide SentUpTo;
    for index := 0 to totalChunks
      invariant server.Valid() && HoldsChunks(server.blobs, uploadId, file, chunkSize)
      invariant uploaded <= Indices(server.chunks, uploadId)
      invariant SentUpTo(server.chunks, server.blobs, uploadId, uploaded, index)
      invariant old(server.blobs).Keys <= server.blobs.Keys
      invariant forall p :: !IsChunkPath(p) ==> (p in server.blobs <==> p in old(server.blobs))
      invariant AllLeftAlone(old(server.chunks), old(server.blobs), server.chunks, server.blobs, uploadId,
        uploaded, index)
    {
      LaterLeftAlone(old(server.chunks), old(server.blobs), server.chunks, server.blobs, uploadId, uploaded, index,
        totalChunks);
      ghost var chunks, blobs := server.chunks, server.blobs;
      if index in uploaded {
        SentOneMore(chunks, blobs, chunks, blobs, uploadId, uploaded, index);
        continue;
      }
      if lost(index) { return false; }
      ok := SendMissingOne(server, user, uploadId, uploaded, file, chunkSize, index, old(server.chunks),
        old(server.blobs), totalChunks);
      if !ok { return; }
      SentOneMore(chunks, blobs, server.chunks, server.blobs, uploadId, uploaded, index);
    }
    AllSentUp(server.chunks, server.blobs, uploadId, uploaded, totalChunks);
    ok := true;
  }

  // The chunks below an index have their rows, and those that were sent their blobs.
  ghost predicate SentUpTo(chunks: ChunkTable, blobs: Blobs, uploadId: string, uploaded: set<nat>, index: nat) {
    forall i: nat :: i < index ==>
      i in Indices(chunks, uploadId) && (i !in uploaded ==> ChunkPath(uploadId, i) in blobs)
  }

  lemma SentOneMore(chunks0: ChunkTable, blobs0: Blobs, chunks: ChunkTable, blobs: Blobs, uploadId: string,
    uploaded: set<nat>, index: nat)
    requires SentUpTo(chunks0, blobs0, uploadId, uploaded, index)
    requires Indices(chunks0, uploadId) <= Indices(chunks, uploadId) && blobs0.Keys <= blobs.Keys
    requires index in Indices(chunks, uploadId) && (index !in uploaded ==> ChunkPath(uploadId, index) in blobs)
    ensures SentUpTo(chunks, blobs, uploadId, uploaded, index + 1)
  {
    hide Indices, ChunkPath;
  }

  lemma AllSentUp(chunks: ChunkTable, blobs: Blobs, uploadId: string, uploaded: set<nat>, n: nat)
    requires SentUpTo(chunks, blobs, uploadId, uploaded, n)
    ensures forall i: nat :: i < n ==> i in Indices(chunks, uploadId)
    ensures forall i: nat :: i < n && i !in uploaded ==> ChunkPath(uploadId, i) in blobs
  {
    hide Indices, ChunkPath;
  }

  method SendMissingOne(server: Server, user: Id, uploadId: string, ghost uploaded: set<nat>, file: Bytes,
    chunkSize: nat, index: nat,
    ghost chunks0: ChunkTable, ghost blobs0: Blobs, ghost totalChunks: nat) returns (ok: bool)
    requires server.Valid() && HoldsChunks(server.blobs, uploadId, file, chunkSize) && index !in uploaded
    requires index < totalChunks
    requires AllLeftAlone(chunks0, blobs0, server.chunks, server.blobs, uploadId, uploaded, index)
    modifies server`chunks, server`blobs
    ensures server.Valid() && HoldsChunks(server.blobs, uploadId, file, chunkSize)
    ensures Indices(server.chunks, uploadId) == Indices(old(server.chunks), uploadId) + if ok then {index} else {}
    ensures ok ==> ChunkPath(uploadId, index) in server.blobs
    ensures old(server.blobs).Keys <= server.blobs.Keys
    ensures server.reliable && Verdict(server.sessions, user, uploadId, index) == Done ==> ok
    ensures forall p :: !IsChunkPath(p) ==> (p in server.blobs <==> p in old(server.blobs))
    ensures AllLeftAlone(chunks0, blobs0, server.chunks, server.blobs, uploadId, uploaded, index + 1)
    ensures AllLeftAlone(chunks0, blobs0, server.chunks, server.blobs, uploadId, uploaded, totalChunks)
  {
    hide HoldsChunks, ChunkPath, Chunk, Indices, Verdict, IsChunkPath, SessionsOk, ChunksOk, AllLeftAlone;
    ghost var blobs, chunks := server.blobs, server.chunks;
    var data := Chunk(file, chunkSize, index);
    var reply := server.UploadChunk(user, uploadId, index, data);
    StoringKeepsChunks(blobs, uploadId, file, chunkSize, uploadId, index, data);
    StoredIndices(chunks, uploadId, index, ChunkRow(ChunkPath(uploadId, index), |data|), uploadId);
    PathsApart(uploadId, index, "", "");
    OneChunkStored(chunks0, blobs0, chunks, blobs, server.chunks, server.blobs, uploadId, uploaded, index,
      totalChunks, data);
    ok := reply == Done;
  }

  // The guards let every chunk of the announced number pass.
  ghost predicate Accepts(sessions: map<Id, Session>, user: Id, uploadId: string, totalChunks: nat) {
    forall index: nat :: index < totalChunks ==> Verdict(sessions, user, uploadId, index) == Done
  }

  lemma OwnSessionAccepts(sessions: map<Id, Session>, nextId: nat, s: Id)
    requires SessionsOk(sessions, nextId) && s in sessions
    ensures forall n: nat :: n <= sessions[s].totalChunks ==>
      Accepts(sessions, sessions[s].user, sessions[s].uploadId, n)
  {}

  // A chunk's row and blob are as they were.
  ghost predicate LeftAlone(chunks0: ChunkTable, blobs0: Blobs, chunks: ChunkTable, blobs: Blobs,
    uploadId: string, i: nat) {
    && ((uploadId, i) in chunks <==> (uploadId, i) in chunks0)
    && ((uploadId, i) in chunks ==> chunks[(uploadId, i)] == chunks0[(uploadId, i)])
    && (ChunkPath(uploadId, i) in blobs <==> ChunkPath(uploadId, i) in blobs0)
    && (ChunkPath(uploadId, i) in blobs ==> blobs[ChunkPath(uploadId, i)] == blobs0[ChunkPath(uploadId, i)])
  }

  // So are those of all chunks that were there before the loop, or that it has not reached.
  ghost predicate AllLeftAlone(chunks0: ChunkTable, blobs0: Blobs, chunks: ChunkTable, blobs: Blobs, uploadId: string,
    uploaded: set<nat>, reached: nat)
  {
    forall i: nat :: i in uploaded || i >= reached ==> LeftAlone(chunks0, blobs0, chunks, blobs, uploadId, i)
  }

  lemma NothingDone(chunks: ChunkTable, blobs: Blobs, uploadId: string, uploaded: set<nat>)
    ensures AllLeftAlone(chunks, blobs, chunks, blobs, uploadId, uploaded, 0)
  {}

  lemma LaterLeftAlone(chunks0: ChunkTable, blobs0: Blobs, chunks: ChunkTable, blobs: Blobs, uploadId: string,
    uploaded: set<nat>, reached: nat, later: nat)
    requires AllLeftAlone(chunks0, blobs0, chunks, blobs, uploadId, uploaded, reached) && reached < later
    ensures AllLeftAlone(chunks0, blobs0, chunks, blobs, uploadId, uploaded, reached + 1)
    ensures AllLeftAlone(chunks0, blobs0, chunks, blobs, uploadId, uploaded, later)
  {
    hide LeftAlone;
  }

  lemma OneChunkStored(chunks0: ChunkTable, blobs0: Blobs, chunks1: ChunkTable, blobs1: Blobs, chunks: ChunkTable,
    blobs: Blobs,
    uploadId: string, uploaded: set<nat>, index: nat, later: nat, data: Bytes)
    requires AllLeftAlone(chunks0, blobs0, chunks1, blobs1, uploadId, uploaded, index) && index !in uploaded
    requires index < later
    requires chunks == chunks1 || chunks == chunks1[(uploadId, index) := ChunkRow(ChunkPath(uploadId, index), |data|)]
    requires blobs == blobs1 || blobs == blobs1[ChunkPath(uploadId, index) := data]
    ensures AllLeftAlone(chunks0, blobs0, chunks, blobs, uploadId, uploaded, index + 1)
    ensures AllLeftAlone(chunks0, blobs0, chunks, blobs, uploadId, uploaded, later)
  {
    forall i: nat | i in uploaded || i > index ensures LeftAlone(chunks0, blobs0, chunks, blobs, uploadId, i) {
      OtherChunkStored(chunks0, blobs0, chunks1, blobs1, chunks, blobs, uploadId, i, index, data);
    }
  }

  // Storing one chunk leaves the others alone, however far it got.
  lemma OtherChunkStored(chunks0: ChunkTable, blobs0: Blobs, chunks1: ChunkTable, blobs1: Blobs, chunks: ChunkTable,
    blobs: Blobs,
    uploadId: string, i: nat, index: nat, data: Bytes)
    requires LeftAlone(chunks0, blobs0, chunks1, blobs1, uploadId, i) && i != index
    requires chunks == chunks1 || chunks == chunks1[(uploadId, index) := ChunkRow(ChunkPath(uploadId, index), |data|)]
    requires blobs == blobs1 || blobs == blobs1[ChunkPath(uploadId, index) := data]
    ensures LeftAlone(chunks0, blobs0, chunks, blobs, uploadId, i)
  {
    if ChunkPath(uploadId, i) == ChunkPath(uploadId, index) { ChunkPathInjective(uploadId, i, uploadId, index); }
    hide ChunkPath;
  }

  // The whole upload. None: a request was lost or refused. If chunks of an earlier try were
  // cut from the same file with the same size, a completed upload is the file; and once the
  // loop is through, completion never finds chunks missing.
  method UploadByMultipart(server: Server, user: Id, userName: string, file: Bytes, hash: string,
    megabytes: int, token: string, existing: Option<string>, lost: nat -> bool, lockTaken: bool, rowFails: bool)
    returns (r: Option<Reply>)
    requires server.Valid() && server.Unseen(token)
    requires var latest := Latest(server.sessions, user, hash, server.nextId);
      latest.Some? ==> HoldsChunks(server.blobs, server.sessions[latest.value].uploadId, file, ChunkSize(megabytes))
    modifies server
    ensures server.Valid()
    ensures var target := Target(userName, hash, existing);
      r == Some(Done) && !IsChunkPath(target) && !(existing.Some? && target in old(server.blobs)) ==>
        target in server.blobs && server.blobs[target] == file
    ensures r != Some(Incomplete)
    ensures
      server.reliable && (forall i :: !lost(i)) && !lockTaken && !rowFails &&
      old(Resumable(server, user, hash, TotalChunks(|file|, ChunkSize(megabytes)))) ==>
        r == Some(Done)
  {
    hide HoldsChunks, ChunkPath, Chunk, Indices, Verdict, Latest, Target, Sorted, Composed, AllThere, IsChunkPath;
    hide Accepts;
    hide TotalChunks, SessionsOk, OnlyWrites, ChunkSize;
    var chunkSize := ChunkSize(megabytes);
    var totalChunks := TotalChunks(|file|, chunkSize);
    var target := Target(userName, hash, existing);
    NewUploadHoldsNothing(server, token, file, chunkSize);
    var init := server.Init(user, hash, |file|, chunkSize, totalChunks, token);
    if init == None || init.value.0 == "" { return None; }
    var (uploadId, uploaded) := init.value;
    ghost var id := Latest(server.sessions, user, hash, server.nextId).value;
    ghost var session := server.sessions[id];
    OwnSessionAccepts(server.sessions, server.nextId, id);
    ghost var before := server.blobs;
    var sent := SendMissing(server, user, uploadId, uploaded, file, chunkSize, totalChunks, lost);
    if !sent || lost(totalChunks) { return None; }
    ghost var blobs, chunks := server.blobs, server.chunks;
    AllSent(server.sessions, chunks, id, totalChunks);
    if session.totalChunks == totalChunks && forall i: nat :: i in uploaded ==> ChunkPath(uploadId, i) in before {
      ReadyToCompose(server.sessions, user, hash, server.nextId, chunks, blobs, totalChunks, |file|);
    }
    var reply := server.Complete(user, userName, hash, totalChunks, |file|, existing, lockTaken, rowFails);
    r := Some(reply);
    if reply == Done && !IsChunkPath(target) && !(existing.Some? && target in old(server.blobs)) {
      DoneIsTheFile(session, chunks, blobs, server.blobs, existing, target, file, chunkSize);
    }
  }

  lemma ReadyToCompose(sessions: map<Id, Session>, user: Id, hash: string, nextId: nat, chunks: ChunkTable,
    blobs: Blobs, total: int, fileSize: int)
    requires var latest := Latest(sessions, user, hash, nextId);
      && latest.Some? && total > 0
      && forall i :: i in Indices(chunks, sessions[latest.value].uploadId) ==>
           ChunkPath(sessions[latest.value].uploadId, i) in blobs
    ensures !CannotWrite(sessions, user, hash, nextId, chunks, blobs, total, fileSize)
  {
    hide ChunkPath, Indices;
  }

  // Nothing stands in the way of an upload of this many chunks: there is no earlier try with
  // chunks on the server, or it announced as many and all its chunks are there.
  ghost predicate Resumable(server: Server, user: Id, hash: string, totalChunks: nat)
    reads server
  {
    match Latest(server.sessions, user, hash, server.nextId)
    case None => true
    case Some(s) =>
      var session := server.sessions[s];
      || Indices(server.chunks, session.uploadId) == {}
      || (session.totalChunks == totalChunks &&
          forall i :: i in Indices(server.chunks, session.uploadId) ==> ChunkPath(session.uploadId, i) in server.blobs)
  }

  // With every index sent and none out of range, the chunk count is the announced one.
  lemma AllSent(sessions: map<Id, Session>, chunks: ChunkTable, s: Id, n: nat)
    requires ChunksOk(sessions, chunks) && s in sessions
    requires forall i: nat :: i < n ==> i in Indices(chunks, sessions[s].uploadId)
    ensures forall i: nat :: i in Indices(chunks, sessions[s].uploadId) ==> i < sessions[s].totalChunks
    ensures sessions[s].totalChunks == n ==> |Indices(chunks, sessions[s].uploadId)| == n
  {
    hide ChunkPath;
    forall i: nat | i in Indices(chunks, sessions[s].uploadId) ensures i < sessions[s].totalChunks {
      assert (sessions[s].uploadId, i) in chunks;
    }
    if sessions[s].totalChunks == n { RangeSize(Indices(chunks, sessions[s].uploadId), n); }
  }

  lemma DoneIsTheFile(s: Session, chunks: ChunkTable, before: Blobs, after: Blobs,
    existing: Option<string>, target: string, file: Bytes, chunkSize: nat)
    requires chunkSize > 0 && s.totalChunks == TotalChunks(|file|, chunkSize)
    requires HoldsChunks(before, s.uploadId, file, chunkSize)
    requires forall i: nat :: i in Indices(chunks, s.uploadId) ==> i < s.totalChunks
    requires FileCompleted(s, chunks, before, after, s.totalChunks, existing, target, Done)
    requires !IsChunkPath(target) && !(existing.Some? && target in before)
    ensures target in after && after[target] == file
  {
    hide HoldsChunks, Composed, AllThere, Indices, IsChunkPath, Sorted;
    ComposedIsTheFile(before, chunks, s.uploadId, file, chunkSize);
  }

  lemma NewUploadHoldsNothing(server: Server, token: string, file: Bytes, chunkSize: nat)
    requires server.Unseen(token)
    ensures HoldsChunks(server.blobs, token, file, chunkSize) && Indices(server.chunks, token) == {}
  {}

  // ---- Resuming with another chunk size ------------------------------------

  // The first chunks of the upload are these, and no others are there.
  ghost predicate HoldsFirst(chunks: ChunkTable, blobs: Blobs, uploadId: string, parts: seq<Bytes>, k: nat) {
    && k <= |parts|
    && (forall i: nat :: i in Indices(chunks, uploadId) <==> i < k)
    && (forall i: nat :: i < k ==> ChunkPath(uploadId, i) in blobs && blobs[ChunkPath(uploadId, i)] == parts[i])
  }

  lemma HoldsOneMore(chunks: ChunkTable, blobs: Blobs, uploadId: string, parts: seq<Bytes>, k: nat)
    requires HoldsFirst(chunks, blobs, uploadId, parts, k) && k < |parts|
    ensures HoldsFirst(chunks[(uploadId, k) := ChunkRow(ChunkPath(uploadId, k), |parts[k]|)],
      blobs[ChunkPath(uploadId, k) := parts[k]], uploadId, parts, k + 1)
  {
    StoredIndices(chunks, uploadId, k, ChunkRow(ChunkPath(uploadId, k), |parts[k]|), uploadId);
    forall i: nat | i < k ensures ChunkPath(uploadId, i) != ChunkPath(uploadId, k) {
      if ChunkPath(uploadId, i) == ChunkPath(uploadId, k) { ChunkPathInjective(uploadId, i, uploadId, k); }
    }
    hide ChunkPath, Indices;
  }

  lemma {:induction false} FirstComposed(blobs: Blobs, uploadId: string, parts: seq<Bytes>, indices: seq<nat>)
    requires |indices| <= |parts| && forall k :: 0 <= k < |indices| ==> indices[k] == k
    requires forall i: nat :: i < |indices| ==>
      ChunkPath(uploadId, i) in blobs && blobs[ChunkPath(uploadId, i)] == parts[i]
    ensures AllThere(blobs, uploadId, indices) && Composed(blobs, uploadId, indices) == Concat(parts[..|indices|])
  {
    hide ChunkPath;
    if indices != [] {
      var n := |indices|;
      FirstComposed(blobs, uploadId, parts, indices[..n - 1]);
      assert parts[..n][..n - 1] == parts[..n - 1];
      assert indices[n - 1] in indices;
    }
  }

  // Nothing about any other upload is there.
  ghost predicate Foreign(chunks: ChunkTable, blobs: Blobs, other: string) {
    (forall k :: k in chunks ==> k.0 != other) && forall i: nat :: ChunkPath(other, i) !in blobs
  }

  lemma StoringStaysForeign(chunks: ChunkTable, blobs: Blobs, other: string, uploadId: string, index: nat,
    row: ChunkRow, data: Bytes)
    requires Foreign(chunks, blobs, other) && uploadId != other
    ensures Foreign(chunks[(uploadId, index) := row], blobs[ChunkPath(uploadId, index) := data], other)
  {
    forall i: nat ensures ChunkPath(other, i) != ChunkPath(uploadId, index) {
      if ChunkPath(other, i) == ChunkPath(uploadId, index) { ChunkPathInjective(other, i, uploadId, index); }
    }
    hide ChunkPath;
  }

  method SendRange(server: Server, user: Id, uploadId: string, parts: seq<Bytes>, from: nat, to: nat,
    ghost other: string)
    requires server.Valid() && server.reliable && from <= to <= |parts| && uploadId != other
    requires HoldsFirst(server.chunks, server.blobs, uploadId, parts, from)
    requires Foreign(server.chunks, server.blobs, other)
    requires forall i :: 0 <= i < |parts| ==> Verdict(server.sessions, user, uploadId, i) == Done
    modifies server`chunks, server`blobs
    ensures server.Valid() && HoldsFirst(server.chunks, server.blobs, uploadId, parts, to)
    ensures Foreign(server.chunks, server.blobs, other)
  {
    hide HoldsFirst, Verdict, ChunkPath, SessionsOk, ChunksOk, Foreign;
    for k := from to to
      invariant server.Valid() && HoldsFirst(server.chunks, server.blobs, uploadId, parts, k)
      invariant Foreign(server.chunks, server.blobs, other)
    {
      HoldsOneMore(server.chunks, server.blobs, uploadId, parts, k);
      StoringStaysForeign(server.chunks, server.blobs, other, uploadId, k,
        ChunkRow(ChunkPath(uploadId, k), |parts[k]|), parts[k]);
      var reply := server.UploadChunk(user, uploadId, k, parts[k]);
    }
  }

  function TwoSizes(a: nat, b: nat, first: nat, n: nat): (r: seq<nat>)
    ensures |r| == n && forall i :: 0 <= i < n ==> r[i] == if i < first then a else b
  {
    seq(n, i requires 0 <= i < n => if i < first then a else b)
  }

  // A whole upload on a fresh server: some chunks are sent with one size, then the upload is
  // resumed with another that announces the same number. Completion answers "done", and the
  // object is the file if and only if there was one chunk, or one size.
  method ResumeWithOtherSize(file: Bytes, a: nat, b: nat, first: nat, user: Id, userName: string, hash: string,
    token: string, token2: string)
    returns (server: Server, r: Reply, target: string)
    requires a > 0 && b > 0 && TotalChunks(|file|, a) == TotalChunks(|file|, b) && 0 < first <= TotalChunks(|file|, a)
    requires token != "" && token2 != "" && token != token2
    ensures r == Done && target == BuildObjectName(userName, hash) && target in server.blobs
    ensures server.blobs[target] == file <==> TotalChunks(|file|, a) == 1 || a == b || first == TotalChunks(|file|, a)
  {
    var n := TotalChunks(|file|, a);
    var parts := MixedChunks(file, TwoSizes(a, b, first, n));
    TwoSizesVerdict(file, a, b, first);
    hide Chunk, TotalChunks, Concat, MixedChunks, TwoSizes, HoldsFirst, Foreign, Verdict, Latest;
    server := BeginUpload(parts, |file|, a, first, user, hash, token, token2);
    r, target := FinishUpload(server, parts, |file|, b, first, user, userName, hash, token, token2);
  }

  // The rest of the chunks and completion, after an interruption.
  method FinishUpload(server: Server, parts: seq<Bytes>, fileSize: nat, chunkSize: nat, first: nat, user: Id,
    userName: string, hash: string,
    token: string, token2: string) returns (r: Reply, target: string)
    requires server.reliable && server.Valid() && 0 < first <= |parts| && token2 != "" && token != token2
    requires Latest(server.sessions, user, hash, server.nextId) == Some(0) && server.sessions.Keys == {0}
    requires server.sessions[0].uploadId == token && server.sessions[0].totalChunks == |parts|
    requires HoldsFirst(server.chunks, server.blobs, token, parts, first)
    requires Foreign(server.chunks, server.blobs, token2)
    requires forall i :: 0 <= i < |parts| ==> Verdict(server.sessions, user, token, i) == Done
    modifies server
    ensures r == Done && target == BuildObjectName(userName, hash) && target in server.blobs
    ensures server.blobs[target] == Concat(parts)
  {
    hide Concat, HoldsFirst, Indices, Sorted, Composed, AllThere, IsChunkPath, ChunkPath, BuildObjectName, Foreign;
    hide Verdict, Latest;
    hide SessionsOk, ChunksOk, OnlyWrites;
    SomethingHeld(server.chunks, server.blobs, token, parts, first);
    SeenByNobody(server, token2);
    var again := server.Init(user, hash, fileSize, chunkSize, |parts|, token2);
    SendRange(server, user, token, parts, first, |parts|, token2);
    WholeUpload(server.chunks, server.blobs, token, parts);
    PathsApart(token, 0, userName, hash);
    target := Target(userName, hash, None);
    r := server.Complete(user, userName, hash, |parts|, fileSize, None, false, false);
  }

  // A fresh server that has got the first chunks of one upload.
  method BeginUpload(parts: seq<Bytes>, fileSize: nat, chunkSize: nat, first: nat, user: Id, hash: string,
    token: string, ghost other: string)
    returns (server: Server)
    requires first <= |parts| && token != "" && token != other
    ensures fresh(server) && server.reliable && server.Valid()
    ensures Latest(server.sessions, user, hash, server.nextId) == Some(0) && server.sessions.Keys == {0}
    ensures server.sessions[0] == Session(token, user, hash, fileSize, chunkSize, |parts|)
    ensures HoldsFirst(server.chunks, server.blobs, token, parts, first) && Foreign(server.chunks, server.blobs, other)
    ensures forall i :: 0 <= i < |parts| ==> Verdict(server.sessions, user, token, i) == Done
  {
    hide HoldsFirst, Indices, ChunkPath, Foreign, Verdict, Latest, SessionsOk, ChunksOk;
    server := new Server(true);
    StartsEmpty(token, parts);
    StartsEmpty(other, parts);
    SeenByNobody(server, token);
    var init := server.Init(user, hash, fileSize, chunkSize, |parts|, token);
    assert server.sessions[0].uploadId == token;
    OwnSession(server.sessions, server.nextId, user, token, parts);
    SendRange(server, user, token, parts, 0, first, other);
  }

  lemma TwoSizesVerdict(file: Bytes, a: nat, b: nat, first: nat)
    requires a > 0 && b > 0 && TotalChunks(|file|, a) == TotalChunks(|file|, b) && 0 < first <= TotalChunks(|file|, a)
    ensures var n := TotalChunks(|file|, a);
      Concat(MixedChunks(file, TwoSizes(a, b, first, n))) == file <==> n == 1 || a == b || first == n
  {
    var n := TotalChunks(|file|, a);
    var sizes := TwoSizes(a, b, first, n);
    MixedSizesIff(file, sizes, a, b);
    assert sizes[0] == a && sizes[n - 1] == if first == n then a else b;
    hide Chunk, TotalChunks, Concat;
  }

  lemma StartsEmpty(uploadId: string, parts: seq<Bytes>)
    ensures HoldsFirst(map[], map[], uploadId, parts, 0) && Foreign(map[], map[], uploadId)
    ensures Indices(map[], uploadId) == {}
  {}

  lemma SeenByNobody(server: Server, token: string)
    requires token != "" && Foreign(server.chunks, server.blobs, token)
    requires forall s :: s in server.sessions ==> server.sessions[s].uploadId != token
    ensures server.Unseen(token)
  {}

  lemma OwnSession(sessions: map<Id, Session>, nextId: nat, user: Id, token: string, parts: seq<Bytes>)
    requires SessionsOk(sessions, nextId) && token != ""
    requires exists s ::
      s in sessions && sessions[s].uploadId == token && sessions[s].user == user && sessions[s].totalChunks == |parts|
    ensures forall i :: 0 <= i < |parts| ==> Verdict(sessions, user, token, i) == Done
  {}

  lemma SomethingHeld(chunks: ChunkTable, blobs: Blobs, uploadId: string, parts: seq<Bytes>, k: nat)
    requires HoldsFirst(chunks, blobs, uploadId, parts, k) && k > 0
    ensures Indices(chunks, uploadId) != {}
  {
    assert 0 in Indices(chunks, uploadId);
  }

  lemma WholeUpload(chunks: ChunkTable, blobs: Blobs, uploadId: string, parts: seq<Bytes>)
    requires HoldsFirst(chunks, blobs, uploadId, parts, |parts|)
    ensures var xs := Indices(chunks, uploadId);
      && |xs| == |parts| && AllThere(blobs, uploadId, Sorted(xs))
      && Composed(blobs, uploadId, Sorted(xs)) == Concat(parts)
  {
    var xs := Indices(chunks, uploadId);
    RangeSize(xs, |parts|);
    CountMakesWhole(xs, |parts|);
    FirstComposed(blobs, uploadId, parts, Sorted(xs));
    assert parts[..|parts|] == parts;
  }
}
