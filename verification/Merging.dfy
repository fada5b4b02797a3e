// Completion requests of several callers at once. Each takes the merge lock of its user and
// hash between its guards and the composition; the calls of different callers interleave.

module Merging {
  import opened Wrappers
  import opened Decimals
  import Multipart
  import opened RedisLocks

  datatype Request = Request(user: nat, userName: string, hash: string, totalChunks: int, fileSize: int,
    existing: Option<string>, rowFails: bool)

  function MergeKey(user: nat, hash: string): string {
    "lock:merge:" + NatText(user) + ":" + hash
  }

  // Two requests ask for one lock exactly when they are about the same user and hash.
  lemma MergeKeyInjective(u: nat, g: string, v: nat, h: string)
    ensures MergeKey(u, g) == MergeKey(v, h) <==> u == v && g == h
  {
    if MergeKey(u, g) == MergeKey(v, h) {
      var prefix := "lock:merge:";
      NumbersAreFree(u, ':');
      NumbersAreFree(v, ':');
      assert MergeKey(u, g)[|prefix|..] == NatText(u) + [':'] + g;
      assert MergeKey(v, h)[|prefix|..] == NatText(v) + [':'] + h;
      SplitAtFirst(NatText(u), g, NatText(v), h, ':');
      NatTextInjective(u, v);
    }
  }

  // Who completed, and who was between lock and unlock at that moment.
  datatype Entry = Entry(writer: nat, inside: set<nat>)

  class Merges {
    const server: Multipart.Server
    const callers: Callers
    const requests: seq<Request>
    var agreed: map<nat, (int, int)>      // number of chunks and size, after a caller's guards
    ghost var log: seq<Entry>

    ghost predicate Valid()
      reads this, server, callers, callers.rdb, callers.locks
    {
      && server.Valid() && callers.Valid() && callers.Held()
      && |callers.locks| == |requests| && callers.inside <= agreed.Keys
      && (forall i :: 0 <= i < |requests| ==> callers.locks[i].key == MergeKey(requests[i].user, requests[i].hash))
    }

    predicate SameFile(i: nat, j: nat)
      requires i < |requests| && j < |requests|
    {
      requests[i].user == requests[j].user && requests[i].hash == requests[j].hash
    }

    // Of the callers of one user's hash only one is between lock and unlock.
    lemma OneInside(i: nat, j: nat)
      requires Valid() && i in callers.inside && j in callers.inside && i < |requests| && j < |requests|
      ensures SameFile(i, j) ==> i == j
    {
      MergeKeyInjective(requests[i].user, requests[i].hash, requests[j].user, requests[j].hash);
      callers.HeldExcludes();
    }

    // No other caller of the same user's hash was inside.
    ghost predicate Alone(e: Entry)
    {
      e.writer in e.inside && e.writer < |requests| &&
      forall j :: j in e.inside && j < |requests| && SameFile(e.writer, j) ==> j == e.writer
    }

    constructor (server: Multipart.Server, callers: Callers, requests: seq<Request>)
      requires server.Valid() && callers.Valid() && callers.Held() && callers.inside == {}
      requires |callers.locks| == |requests|
      requires forall i :: 0 <= i < |requests| ==>
        callers.locks[i].key == MergeKey(requests[i].user, requests[i].hash)
      ensures Valid() && log == []
      ensures this.server == server && this.callers == callers && this.requests == requests
    {
      this.server, this.callers, this.requests := server, callers, requests;
      agreed, log := map[], [];
    }

    // Guards and lock. While another caller of the same user's hash is inside, this one is
    // answered at once; nothing on the server changes in either case.
    method Begin(i: nat) returns (answer: Option<Multipart.Reply>)
      requires Valid() && i < |requests| && i !in callers.inside
      modifies `agreed, callers`inside, callers.rdb, callers.locks[i]
      ensures Valid()
      ensures answer == None <==> i in callers.inside
      ensures answer.Some? ==> answer.value in {Multipart.NotFound, Multipart.Mismatch, Multipart.Failed}
      ensures answer.Some? ==> callers.inside == old(callers.inside)
      ensures answer == None ==> callers.inside == old(callers.inside) + {i}
      ensures (exists j :: j in callers.inside && j < |requests| && j != i && SameFile(i, j)) ==> answer.Some?
    {
      var q := requests[i];
      var refused, total, size := server.Guards(q.user, q.hash, q.totalChunks, q.fileSize);
      if refused.Some? { return refused; }
      agreed := agreed[i := (total, size)];
      callers.Enter(i);
      if i !in callers.inside { return Some(Multipart.Failed); }
      forall j | j in callers.inside && j < |requests| && SameFile(i, j) ensures j == i { OneInside(i, j); }
      return None;
    }

    // The composition, and the lock is given back.
    method Finish(i: nat) returns (r: Multipart.Reply)
      requires Valid() && i < |requests| && i in callers.inside
      modifies `log, callers`inside, callers.rdb, server
      ensures Valid() && callers.inside == old(callers.inside) - {i}
      ensures log == old(log) + [Entry(i, old(callers.inside))] && Alone(log[|log| - 1])
      ensures var q := requests[i];
        Multipart.OnlyWrites(old(server.blobs), server.blobs, Multipart.Target(q.userName, q.hash, q.existing))
    {
      forall j | j in callers.inside && j < |requests| && SameFile(i, j) ensures j == i { OneInside(i, j); }
      log := log + [Entry(i, callers.inside)];
      var q := requests[i];
      var (total, size) := agreed[i];
      r := server.CompleteFile(q.user, q.userName, q.hash, total, size, q.existing, q.rowFails);
      callers.Exit(i);
    }

    // Whatever callers do in whatever order, and whichever keys expire that nobody inside
    // relies on: whoever composed was the only one inside for its user and hash.
    method Run(rounds: nat)
      requires Valid() && forall k :: 0 <= k < |log| ==> Alone(log[k])
      modifies this, callers, callers.rdb, callers.locks, server
      ensures Valid() && old(log) <= log && forall k :: 0 <= k < |log| ==> Alone(log[k])
    {
      for n := 0 to rounds
        invariant Valid() && old(log) <= log && forall k :: 0 <= k < |log| ==> Alone(log[k])
      {
        var i: nat, expires: bool, key: string := *, *, *;
        if expires {
          if forall j :: j in callers.inside ==> callers.locks[j].key != key { callers.ExpireUnheld(key); }
        } else if i < |requests| {
          if i in callers.inside {
            var r := Finish(i);
          } else {
            var answer := Begin(i);
          }
        }
      }
    }
  }
}
