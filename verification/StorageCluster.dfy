// Several storage nodes behind one cluster: selection, upload with replicas, and migration
// from full nodes to the one with the least used size.

module StorageCluster {
  import opened Wrappers
  import opened RoundRobin

  datatype NodeState = NodeState(available: bool, total: int, used: int, blobs: map<string, Bytes>)

  datatype Strategy = RoundRobinStrategy | LeastConnStrategy | HashStrategy | OtherStrategy

  // An entry of a bucket listing: a key, and a size as the listing reports it; None is an
  // entry that reports an error.
  type Listing = seq<Option<(string, int)>>

  function Flags(states: seq<NodeState>): (r: seq<bool>)
    ensures |r| == |states|
    ensures forall i :: 0 <= i < |r| ==> r[i] == states[i].available
  {
    seq(|states|, i requires 0 <= i < |states| => states[i].available)
  }

  // ---- Least connections --------------------------------------------------

  datatype Least = Least(min: int, node: Option<nat>)

  // The scan over the first k nodes; a minimum of -1 reads as "none yet".
  function Scan(states: seq<NodeState>, k: nat): (r: Least)
    requires k <= |states|
    ensures r.node.Some? ==> r.node.value < k && states[r.node.value].available && r.min == states[r.node.value].used
    ensures r.node == None ==> r.min == -1 && forall i :: 0 <= i < k ==> !states[i].available
  {
    if k == 0 then Least(-1, None)
    else
      var so := Scan(states, k - 1);
      var node := states[k - 1];
      if node.available && (so.min == -1 || node.used < so.min) then Least(node.used, Some(k - 1)) else so
  }

  ghost predicate IsLeast(states: seq<NodeState>, k: nat, least: int) {
    && k <= |states|
    && (exists i :: 0 <= i < k && states[i].available && states[i].used == least)
    && (forall i :: 0 <= i < k && states[i].available ==> least <= states[i].used)
  }

  // The last available node among the first k.
  function LastAvailable(states: seq<NodeState>, k: nat): (r: Option<nat>)
    requires k <= |states|
    ensures r.Some? ==> r.value < k && states[r.value].available
    ensures r == None ==> forall i :: 0 <= i < k ==> !states[i].available
  {
    if k == 0 then None else if states[k - 1].available then Some(k - 1) else LastAvailable(states, k - 1)
  }

  // The scan finds the least used available node, the first of them, unless the least used
  // size is -1 ...
  lemma {:induction false} ScanFindsLeast(states: seq<NodeState>, k: nat, least: int)
    requires IsLeast(states, k, least) && least != -1
    ensures var s := Scan(states, k);
      && s.node.Some? && s.min == least
      && forall i :: 0 <= i < s.node.value && states[i].available ==> states[i].used > least
  {
    if i :| 0 <= i < k - 1 && states[i].available && states[i].used == least {
      ScanFindsLeast(states, k - 1, least);
    }
  }

  // ... and then it does exactly when the last available node has it.
  lemma {:induction false} ScanWithSentinel(states: seq<NodeState>, k: nat)
    requires IsLeast(states, k, -1)
    ensures LastAvailable(states, k).Some?
    ensures Scan(states, k).min == -1 <==> states[LastAvailable(states, k).value].used == -1
  {
    if i :| 0 <= i < k - 1 && states[i].available && states[i].used == -1 {
      ScanWithSentinel(states, k - 1);
    }
  }

  // Least connections picks a least used node if and only if the least used size is not -1
  // or the last available node has it.
  lemma LeastConnIff(states: seq<NodeState>, least: int)
    requires IsLeast(states, |states|, least)
    ensures var s, last := Scan(states, |states|), LastAvailable(states, |states|);
      && s.node.Some? && last.Some?
      && (states[s.node.value].used == least <==> least != -1 || states[last.value].used == -1)
  {
    if least == -1 { ScanWithSentinel(states, |states|); } else { ScanFindsLeast(states, |states|, least); }
  }

  lemma NoneAvailable(a: seq<bool>)
    requires a == []
    ensures Available(a) == {}
  {}

  // ---- Uploads ------------------------------------------------------------

  function PutAt(states: seq<NodeState>, i: nat, key: string, data: Bytes): seq<NodeState>
    requires i < |states|
  {
    states[i := states[i].(blobs := states[i].blobs[key := data])]
  }

  function AddUsed(states: seq<NodeState>, i: nat, delta: int): seq<NodeState>
    requires i < |states|
  {
    states[i := states[i].(used := states[i].used + delta)]
  }

  predicate InRange(placed: seq<nat>, n: nat) {
    forall k :: 0 <= k < |placed| ==> placed[k] < n
  }

  // What uploading to the given nodes, one after the other, leads to.
  function Uploaded(states: seq<NodeState>, placed: seq<nat>, key: string, data: Bytes): (r: seq<NodeState>)
    requires InRange(placed, |states|)
    ensures |r| == |states|
  {
    if placed == [] then states
    else
      var before := Uploaded(states, placed[..|placed| - 1], key, data);
      var i := placed[|placed| - 1];
      AddUsed(PutAt(before, i, key, data), i, |data|)
  }

  lemma UploadedMore(states: seq<NodeState>, placed: seq<nat>, key: string, data: Bytes, i: nat)
    requires InRange(placed, |states|) && i < |states|
    ensures InRange(placed + [i], |states|)
    ensures Uploaded(states, placed + [i], key, data) ==
      AddUsed(PutAt(Uploaded(states, placed, key, data), i, key, data), i, |data|)
  {
    assert (placed + [i])[..|placed|] == placed;
  }

  lemma FlagsKept(states: seq<NodeState>, i: nat, key: string, data: Bytes)
    requires i < |states|
    ensures Flags(AddUsed(PutAt(states, i, key, data), i, |data|)) == Flags(states)
  {}

  function Count(placed: seq<nat>, i: nat): nat {
    if placed == [] then 0 else Count(placed[..|placed| - 1], i) + if placed[|placed| - 1] == i then 1 else 0
  }

  lemma {:induction false} CountIn(placed: seq<nat>, i: nat)
    ensures Count(placed, i) > 0 <==> i in placed
    ensures Distinct(placed) ==> Count(placed, i) <= 1
    ensures Count(placed, i) <= |placed|
  {
    if placed != [] {
      CountIn(placed[..|placed| - 1], i);
      assert placed == placed[..|placed| - 1] + [placed[|placed| - 1]];
    }
  }

  // Every chosen node holds the data and is charged for it once per time it was chosen;
  // every other node is as it was.
  lemma {:induction false} UploadedAt(states: seq<NodeState>, placed: seq<nat>, key: string, data: Bytes, i: nat)
    requires i < |states| && InRange(placed, |states|)
    ensures var r := Uploaded(states, placed, key, data);
      && r[i].used == states[i].used + Count(placed, i) * |data|
      && r[i].available == states[i].available && r[i].total == states[i].total
      && r[i].blobs == if i in placed then states[i].blobs[key := data] else states[i].blobs
  {
    if placed != [] {
      var most, last := placed[..|placed| - 1], placed[|placed| - 1];
      UploadedAt(states, most, key, data, i);
      assert i in placed <==> i in most || i == last by { assert placed == most + [last]; }
      if last == i {
        CountsUp(Count(most, i), |data|);
        if i in most { assert states[i].blobs[key := data][key := data] == states[i].blobs[key := data]; }
      }
    }
  }

  lemma CountsUp(k: nat, size: nat)
    ensures (k + 1) * size == k * size + size
  {}

  // Of consecutive selections, those whose put works; `fails` says which puts fail.
  function Written(nodes: seq<nat>, fails: nat -> bool): (r: seq<nat>)
    ensures |r| <= |nodes| && forall x :: x in r ==> x in nodes
  {
    if nodes == [] then []
    else
      var k := |nodes| - 1;
      Written(nodes[..k], fails) + if fails(k) then [] else [nodes[k]]
  }

  lemma WrittenMore(nodes: seq<nat>, x: nat, fails: nat -> bool)
    ensures Written(nodes + [x], fails) == Written(nodes, fails) + if fails(|nodes|) then [] else [x]
  {
    assert (nodes + [x])[..|nodes|] == nodes;
  }

  lemma {:induction false} WrittenAll(nodes: seq<nat>, fails: nat -> bool)
    requires forall k :: 0 <= k < |nodes| ==> !fails(k)
    ensures Written(nodes, fails) == nodes
  {
    if nodes != [] { WrittenAll(nodes[..|nodes| - 1], fails); }
  }

  // How many of the first n puts work.
  function Works(fails: nat -> bool, n: nat): nat {
    if n == 0 then 0 else Works(fails, n - 1) + if fails(n - 1) then 0 else 1
  }

  // Where n copies go under least connections, each put charged before the next selection.
  // A put that fails charges nobody, and the same node is selected again.
  function Greedy(states: seq<NodeState>, key: string, data: Bytes, n: nat): (r: seq<nat>)
    ensures InRange(r, |states|)
  {
    if n == 0 then []
    else
      var placed := Greedy(states, key, data, n - 1);
      var node := Scan(Uploaded(states, placed, key, data), |states|).node;
      if node.Some? then placed + [node.value] else placed
  }

  lemma GreedyMore(states: seq<NodeState>, key: string, data: Bytes, n: nat)
    ensures var placed := Greedy(states, key, data, n);
      var node := Scan(Uploaded(states, placed, key, data), |states|).node;
      Greedy(states, key, data, n + 1) == if node.Some? then placed + [node.value] else placed
    ensures Greedy(states, key, data, 0) == []
  {}

  // What a selection from position `at` picks, and where it leaves the position.
  ghost predicate Selects(least: bool, states: seq<NodeState>, at: nat, node: nat, next: nat) {
    if least then Scan(states, |states|).node == Some(node) && next == at
    else IsNext(Flags(states), at, Pick(node, next))
  }

  // An upload after n selections.
  ghost predicate Placing(least: bool, states: seq<NodeState>, start: nat, at: nat, key: string, data: Bytes,
    fails: nat -> bool, placed: seq<nat>, picks: seq<Pick>, n: nat)
  {
    && InRange(placed, |states|) && |placed| == Works(fails, n)
    && Flags(Uploaded(states, placed, key, data)) == Flags(states)
    && (forall x :: x in placed ==> x < |states| && states[x].available)
    && if least then placed == Greedy(states, key, data, |placed|) && at == start
       else ArePicks(Flags(states), start, picks) && |picks| == n
            && placed == Written(Nodes(picks), fails) && at == Before(start, picks, n)
  }

  lemma PlacingBegins(least: bool, states: seq<NodeState>, start: nat, key: string, data: Bytes, fails: nat -> bool)
    requires start < |states|
    ensures Placing(least, states, start, start, key, data, fails, [], [], 0)
  {}

  lemma PlacingMeans(least: bool, states: seq<NodeState>, start: nat, at: nat, key: string, data: Bytes,
    fails: nat -> bool, placed: seq<nat>, picks: seq<Pick>, n: nat)
    requires Placing(least, states, start, at, key, data, fails, placed, picks, n) && n > 0
    ensures InRange(placed, |states|) && |placed| == Works(fails, n)
    ensures Flags(Uploaded(states, placed, key, data)) == Flags(states)
    ensures forall x :: x in placed ==> x < |states| && states[x].available
    ensures least ==> placed == Greedy(states, key, data, |placed|) && at == start
    ensures !least ==> ArePicks(Flags(states), start, picks) && |picks| == n
    ensures !least ==> placed == Written(Nodes(picks), fails) && at == picks[n - 1].next
  {}

  // One more selection, whose put works or fails.
  lemma Advance(least: bool, states: seq<NodeState>, start: nat, at: nat, key: string, data: Bytes,
    fails: nat -> bool, placed: seq<nat>, picks: seq<Pick>, n: nat, node: nat, next: nat)
    returns (placed': seq<nat>, picks': seq<Pick>)
    requires Placing(least, states, start, at, key, data, fails, placed, picks, n) && InRange(placed, |states|)
    requires Selects(least, Uploaded(states, placed, key, data), at, node, next)
    requires node < |states| && Uploaded(states, placed, key, data)[node].available
    ensures InRange(placed', |states|) && placed' == (if fails(n) then placed else placed + [node])
    ensures Uploaded(states, placed', key, data) == var so := Uploaded(states, placed, key, data);
      if fails(n) then so else AddUsed(PutAt(so, node, key, data), node, |data|)
    ensures Placing(least, states, start, next, key, data, fails, placed', picks', n + 1)
  {
    hide Uploaded, IsNext, ArePicks, Greedy, Written, Scan, Flags;
    var so := Uploaded(states, placed, key, data);
    placed' := if fails(n) then placed else placed + [node];
    picks' := picks;
    UploadedMore(states, placed, key, data, node);
    FlagsKept(so, node, key, data);
    FlagAt(so, states, node);
    GreedyMore(states, key, data, |placed|);
    if !least {
      picks' := picks + [Pick(node, next)];
      if n == 0 { assert picks' == [Pick(node, next)]; FirstPick(Flags(states), start, Pick(node, next)); }
      else { OneMorePick(Flags(states), start, picks, Pick(node, next)); }
      WrittenMore(Nodes(picks), node, fails);
      assert Nodes(picks') == Nodes(picks) + [node];
    }
  }

  lemma FlagAt(a: seq<NodeState>, b: seq<NodeState>, i: nat)
    requires Flags(a) == Flags(b) && i < |a|
    ensures |a| == |b| && a[i].available == b[i].available
  {
    assert Flags(a)[i] == Flags(b)[i];
  }

  // How many nodes an upload selects unless its first put fails.
  function Replicas(replicaCount: int, n: nat): nat {
    if replicaCount <= 1 then 1 else if replicaCount > n then n else replicaCount
  }

  lemma PicksInRange(a: seq<bool>, i: nat, picks: seq<Pick>)
    requires ArePicks(a, i, picks)
    ensures InRange(Nodes(picks), |a|)
    ensures forall x :: x in Nodes(picks) ==> x < |a| && a[x]
  {
    forall k | 0 <= k < |picks| ensures Nodes(picks)[k] < |a| && a[Nodes(picks)[k]] {
      assert IsNext(a, Before(i, picks, k), picks[k]);
    }
  }

  // With circular selection and no failing put, the object lies on exactly
  // min(ReplicaCount, n, m) distinct available nodes, m of n being available.
  lemma ReplicasLieApart(states: seq<NodeState>, i: nat, picks: seq<Pick>, replicaCount: int, key: string, data: Bytes)
    requires ArePicks(Flags(states), i, picks) && |picks| == Replicas(replicaCount, |states|)
    requires replicaCount >= 1
    ensures InRange(Nodes(picks), |states|)
    ensures var r := Uploaded(states, Nodes(picks), key, data);
      && (forall x :: x in NodeSet(picks) ==>
           x < |states| && states[x].available && r[x].blobs == states[x].blobs[key := data])
      && (forall x: nat :: x < |states| && x !in NodeSet(picks) ==> r[x] == states[x])
    ensures |NodeSet(picks)| == Smaller(Smaller(replicaCount, |states|), |Available(Flags(states))|)
  {
    PicksInRange(Flags(states), i, picks);
    ReplicasCounted(Flags(states), i, picks, replicaCount);
    hide Flags, ArePicks, Available, Uploaded;
    var nodes, r := Nodes(picks), Uploaded(states, Nodes(picks), key, data);
    forall x: nat | x < |states|
      ensures x in nodes ==> r[x].blobs == states[x].blobs[key := data]
      ensures x !in nodes ==> r[x] == states[x]
    {
      UploadLeaves(states, nodes, key, data, x);
    }
  }

  lemma UploadLeaves(states: seq<NodeState>, placed: seq<nat>, key: string, data: Bytes, x: nat)
    requires x < |states| && InRange(placed, |states|)
    ensures var r := Uploaded(states, placed, key, data);
      if x in placed then r[x].blobs == states[x].blobs[key := data] else r[x] == states[x]
  {
    UploadedAt(states, placed, key, data, x);
    CountIn(placed, x);
  }

  lemma ReplicasCounted(a: seq<bool>, i: nat, picks: seq<Pick>, replicaCount: int)
    requires ArePicks(a, i, picks) && |picks| == Replicas(replicaCount, |a|) && replicaCount >= 1
    ensures |NodeSet(picks)| == Smaller(Smaller(replicaCount, |a|), |Available(a)|)
  {
    PicksSpread(a, i, picks);
    AvailableFit(a);
    hide NodeSet, Available, ArePicks;
  }

  lemma AvailableFit(a: seq<bool>)
    ensures |Available(a)| <= |a|
  {
    CircleIsAvailable(a, 0);
    SpanFits(a, 0);
  }

  lemma {:induction false} SpanFits(a: seq<bool>, lo: nat)
    requires lo <= |a|
    ensures |Span(a, lo, |a|)| <= |a| - lo
    decreases |a| - lo
  {
    if lo < |a| { SpanFits(a, lo + 1); }
  }

  // ---- Used sizes ---------------------------------------------------------

  // What a node holds, in bytes.
  ghost function BytesIn(blobs: map<string, Bytes>): nat {
    if blobs == map[] then 0
    else
      var key :| key in blobs;
      |blobs[key]| + BytesIn(blobs - {key})
  }

  function SizeAt(blobs: map<string, Bytes>, key: string): nat {
    if key in blobs then |blobs[key]| else 0
  }

  // The choice of the first object does not matter.
  lemma {:induction false} BytesApart(blobs: map<string, Bytes>, key: string)
    ensures BytesIn(blobs) == SizeAt(blobs, key) + BytesIn(blobs - {key})
    decreases blobs
  {
    if key in blobs {
      var first :| first in blobs && BytesIn(blobs) == |blobs[first]| + BytesIn(blobs - {first});
      if first != key {
        BytesApart(blobs - {first}, key);
        BytesApart(blobs - {key}, first);
        assert blobs - {first} - {key} == blobs - {key} - {first};
      }
    } else {
      assert blobs - {key} == blobs;
    }
  }

  lemma BytesPut(blobs: map<string, Bytes>, key: string, data: Bytes)
    ensures BytesIn(blobs[key := data]) == BytesIn(blobs) - SizeAt(blobs, key) + |data|
  {
    BytesApart(blobs, key);
    BytesApart(blobs[key := data], key);
    assert blobs[key := data] - {key} == blobs - {key};
  }

  // What a node is charged beyond what it holds; negative when it holds more.
  ghost function Excess(node: NodeState): int {
    node.used - BytesIn(node.blobs)
  }

  // Every used size is what the node holds ...
  ghost predicate Booked(states: seq<NodeState>) {
    forall i :: 0 <= i < |states| ==> Excess(states[i]) == 0
  }

  // ... or is at least that.
  ghost predicate Covers(states: seq<NodeState>) {
    forall i :: 0 <= i < |states| ==> Excess(states[i]) >= 0
  }

  // An upload charges a node once per time it was chosen, whatever the node held at the key.
  lemma UploadExcess(states: seq<NodeState>, placed: seq<nat>, key: string, data: Bytes, x: nat)
    requires x < |states| && InRange(placed, |states|)
    ensures Excess(Uploaded(states, placed, key, data)[x]) == Excess(states[x]) +
      if x in placed then (Count(placed, x) - 1) * |data| + SizeAt(states[x].blobs, key) else 0
  {
    UploadedAt(states, placed, key, data, x);
    CountIn(placed, x);
    if x in placed {
      BytesPut(states[x].blobs, key, data);
      CountsUp(Count(placed, x) - 1, |data|);
    }
    hide Uploaded, Count, BytesIn, SizeAt;
  }

  // No upload, however it fails, takes a used size below what the node holds.
  lemma UploadKeepsCovers(states: seq<NodeState>, placed: seq<nat>, key: string, data: Bytes)
    requires Covers(states) && InRange(placed, |states|)
    ensures Covers(Uploaded(states, placed, key, data))
  {
    hide Uploaded, Excess;
    forall x | 0 <= x < |states| ensures Excess(Uploaded(states, placed, key, data)[x]) >= 0 {
      UploadExcess(states, placed, key, data, x);
      CountIn(placed, x);
      if x in placed { NotNegative(Count(placed, x) - 1, |data|); }
    }
  }

  lemma NotNegative(k: nat, size: nat)
    ensures k * size >= 0
    ensures k * size == 0 <==> k == 0 || size == 0
  {}

  // Where every used size was what the node holds, it is so after an upload, however it
  // selected and whatever failed, exactly when no node got more than one copy, unless the
  // object is empty, and no chosen node held content at the key before.
  lemma BookedAfterUploadIff(states: seq<NodeState>, placed: seq<nat>, key: string, data: Bytes)
    requires Booked(states) && InRange(placed, |states|)
    ensures Booked(Uploaded(states, placed, key, data)) <==>
      (data == [] || Distinct(placed)) && forall x: nat :: x in placed ==> SizeAt(states[x].blobs, key) == 0
  {
    var after := Uploaded(states, placed, key, data);
    DistinctIff(placed);
    hide Uploaded, Excess, SizeAt, Distinct;
    forall x: nat | x < |states|
      ensures Excess(after[x]) == 0 <==>
        x !in placed || ((data == [] || Count(placed, x) <= 1) && SizeAt(states[x].blobs, key) == 0)
    {
      BookedNodeIff(states, placed, key, data, x);
    }
    if x :| x in placed && Count(placed, x) > 1 { assert x < |states|; }
  }

  lemma DistinctIff(placed: seq<nat>)
    ensures Distinct(placed) <==> forall x :: x in placed ==> Count(placed, x) <= 1
  {
    forall x | x in placed && Distinct(placed) ensures Count(placed, x) <= 1 { CountIn(placed, x); }
    if j, k :| 0 <= j < k < |placed| && placed[j] == placed[k] {
      ChosenTwice(placed, j, k);
      assert placed[j] in placed;
    }
  }

  lemma BookedNodeIff(states: seq<NodeState>, placed: seq<nat>, key: string, data: Bytes, x: nat)
    requires Booked(states) && x < |states| && InRange(placed, |states|)
    ensures Excess(Uploaded(states, placed, key, data)[x]) == 0 <==>
      x !in placed || ((data == [] || Count(placed, x) <= 1) && SizeAt(states[x].blobs, key) == 0)
  {
    UploadExcess(states, placed, key, data, x);
    CountIn(placed, x);
    if x in placed { NotNegative(Count(placed, x) - 1, |data|); }
    assert Excess(states[x]) == 0;
    hide Uploaded, Excess, SizeAt, Booked;
  }

  lemma {:induction false} ChosenTwice(placed: seq<nat>, j: nat, k: nat)
    requires j < k < |placed| && placed[j] == placed[k]
    ensures Count(placed, placed[j]) >= 2
  {
    var most := placed[..|placed| - 1];
    if k < |placed| - 1 {
      ChosenTwice(most, j, k);
    } else {
      CountIn(most, placed[j]);
      assert most[j] == placed[j];
    }
  }

  // ---- Migration ----------------------------------------------------------

  ghost predicate Stored(states: seq<NodeState>, key: string, data: Bytes) {
    exists i :: 0 <= i < |states| && key in states[i].blobs && states[i].blobs[key] == data
  }

  // All copies of an object are equal.
  ghost predicate Agree(states: seq<NodeState>) {
    forall i, j, key :: 0 <= i < |states| && 0 <= j < |states| && key in states[i].blobs && key in states[j].blobs ==>
      states[i].blobs[key] == states[j].blobs[key]
  }

  ghost predicate HasKey(states: seq<NodeState>, key: string) {
    exists i :: 0 <= i < |states| && key in states[i].blobs
  }

  // Nothing lost and nothing made up: the same keys, and with equal copies the same contents.
  ghost predicate Preserves(before: seq<NodeState>, after: seq<NodeState>) {
    && |after| == |before|
    && (forall key :: HasKey(after, key) <==> HasKey(before, key))
    && (Agree(before) ==> Agree(after))
    && (Agree(before) ==> forall key, data :: Stored(after, key, data) <==> Stored(before, key, data))
  }

  lemma PreservesTrans(a: seq<NodeState>, b: seq<NodeState>, c: seq<NodeState>)
    requires Preserves(a, b) && Preserves(b, c)
    ensures Preserves(a, c)
  {}

  lemma BlobsDecide(a: seq<NodeState>, b: seq<NodeState>)
    requires |a| == |b| && forall i :: 0 <= i < |a| ==> a[i].blobs == b[i].blobs
    ensures Preserves(a, b)
  {
    forall key ensures HasKey(b, key) <==> HasKey(a, key) {
      if i :| 0 <= i < |a| && key in a[i].blobs { assert key in b[i].blobs; }
      if i :| 0 <= i < |a| && key in b[i].blobs { assert key in a[i].blobs; }
    }
    forall key, data ensures Stored(b, key, data) <==> Stored(a, key, data) {
      if i :| 0 <= i < |a| && key in a[i].blobs && a[i].blobs[key] == data { assert key in b[i].blobs; }
      if i :| 0 <= i < |a| && key in b[i].blobs && b[i].blobs[key] == data { assert key in a[i].blobs; }
    }
  }

  // Copying an object to another node.
  lemma CopyPreserves(states: seq<NodeState>, i: nat, j: nat, key: string)
    requires i < |states| && j < |states| && i != j && key in states[i].blobs
    ensures Preserves(states, PutAt(states, j, key, states[i].blobs[key]))
  {
    var data := states[i].blobs[key];
    var after := PutAt(states, j, key, data);
    forall k ensures HasKey(after, k) <==> HasKey(states, k) {
      if x :| 0 <= x < |states| && k in states[x].blobs { assert k in after[x].blobs; }
    }
    forall k, d | Agree(states) ensures Stored(after, k, d) <==> Stored(states, k, d) {
      if x :| 0 <= x < |states| && k in states[x].blobs && states[x].blobs[k] == d { assert k in after[x].blobs; }
      if x :| 0 <= x < |states| && k in after[x].blobs && after[x].blobs[k] == d {
        if x == j && k == key { assert states[i].blobs[k] == d; } else { assert k in states[x].blobs; }
      }
    }
  }

  function DropAt(states: seq<NodeState>, i: nat, key: string): seq<NodeState>
    requires i < |states|
  {
    states[i := states[i].(blobs := states[i].blobs - {key})]
  }

  // Removing it where another node holds an equal copy.
  lemma DropPreserves(states: seq<NodeState>, i: nat, j: nat, key: string)
    requires i < |states| && j < |states| && i != j && key in states[j].blobs
    ensures Preserves(states, DropAt(states, i, key))
  {
    var after := DropAt(states, i, key);
    forall k ensures HasKey(after, k) <==> HasKey(states, k) {
      if x :| 0 <= x < |states| && k in states[x].blobs {
        if x == i && k == key { assert k in after[j].blobs; } else { assert k in after[x].blobs; }
      }
    }
    forall k, d | Agree(states) ensures Stored(after, k, d) <==> Stored(states, k, d) {
      if x :| 0 <= x < |states| && k in states[x].blobs && states[x].blobs[k] == d {
        if x == i && k == key { assert k in after[j].blobs; } else { assert k in after[x].blobs; }
      }
    }
  }

  function Total(states: seq<NodeState>): (r: int)
    ensures |states| == 1 ==> r == states[0].used
  {
    if states == [] then 0 else states[0].used + Total(states[1..])
  }

  lemma {:induction false} TotalAfter(states: seq<NodeState>, i: nat, delta: int)
    requires i < |states|
    ensures Total(AddUsed(states, i, delta)) == Total(states) + delta
  {
    var after := AddUsed(states, i, delta);
    if i == 0 {
      assert after[1..] == states[1..];
    } else {
      TotalAfter(states[1..], i - 1, delta);
      assert after[1..] == AddUsed(states[1..], i - 1, delta);
    }
  }

  lemma {:induction false} TotalSame(a: seq<NodeState>, b: seq<NodeState>)
    requires |a| == |b| && forall i :: 0 <= i < |a| ==> a[i].used == b[i].used
    ensures Total(a) == Total(b)
  {
    if a != [] { TotalSame(a[1..], b[1..]); }
  }

  // How many nodes hold an object.
  function Copies(states: seq<NodeState>, key: string): (r: nat)
    ensures r <= |states|
  {
    if states == [] then 0 else (if key in states[0].blobs then 1 else 0) + Copies(states[1..], key)
  }

  lemma {:induction false} CopiesAt(states: seq<NodeState>, i: nat, node: NodeState, key: string)
    requires i < |states|
    ensures Copies(states[i := node], key) + (if key in states[i].blobs then 1 else 0) ==
            Copies(states, key) + (if key in node.blobs then 1 else 0)
  {
    if i == 0 {
      assert states[i := node][1..] == states[1..];
    } else {
      CopiesAt(states[1..], i - 1, node, key);
      assert states[i := node][1..] == states[1..][i - 1 := node];
    }
  }

  // Moving an object keeps its number of copies unless the target already held one: then
  // migration merges two replicas into one.
  lemma MoveMergesIff(states: seq<NodeState>, i: nat, j: nat, key: string)
    requires i < |states| && j < |states| && i != j && key in states[i].blobs
    ensures var after := DropAt(PutAt(states, j, key, states[i].blobs[key]), i, key);
      && Copies(after, key) == Copies(states, key) - (if key in states[j].blobs then 1 else 0)
      && forall k :: k != key ==> Copies(after, k) == Copies(states, k)
  {
    var put := PutAt(states, j, key, states[i].blobs[key]);
    forall k ensures Copies(DropAt(put, i, key), k) ==
        Copies(states, k) - (if k == key && k in states[j].blobs then 1 else 0)
    {
      CopiesAt(states, j, put[j], k);
      CopiesAt(put, i, DropAt(put, i, key)[i], k);
    }
  }

  // Where the move of one object stops: nowhere, or at the call that fails.
  datatype Stop = Through | AtRead | AtPut | AtRemove

  const NO_STOPS: nat -> Stop := (k: nat) => Through

  function MoveKey(states: seq<NodeState>, i: nat, j: nat, key: string): (r: seq<NodeState>)
    requires i < |states| && j < |states| && i != j && key in states[i].blobs
    ensures |r| == |states|
  {
    var data := states[i].blobs[key];
    AddUsed(AddUsed(DropAt(PutAt(states, j, key, data), i, key), i, -|data|), j, |data|)
  }

  // Whether a listed object is there to be read and has the size that is listed, with which
  // it is put.
  predicate Fits(states: seq<NodeState>, i: nat, entry: Option<(string, int)>)
    requires i < |states|
  {
    entry.Some? && entry.value.0 in states[i].blobs && entry.value.1 == |states[i].blobs[entry.value.0]|
  }

  function Moved(states: seq<NodeState>, i: nat, j: nat, entry: Option<(string, int)>, stop: Stop): (r: seq<NodeState>)
    requires i < |states| && j < |states| && i != j
    ensures |r| == |states|
  {
    if !Fits(states, i, entry) || stop.AtRead? || stop.AtPut? then states
    else if stop.AtRemove? then PutAt(states, j, entry.value.0, states[i].blobs[entry.value.0])
    else MoveKey(states, i, j, entry.value.0)
  }

  lemma MovedSteps(states: seq<NodeState>, i: nat, j: nat, key: string, size: int, stop: Stop)
    requires i < |states| && j < |states| && i != j && key in states[i].blobs && !stop.AtRead?
    ensures var data := states[i].blobs[key];
      var put := PutAt(states, j, key, data);
      Moved(states, i, j, Some((key, size)), stop) ==
        if stop.AtPut? || size != |data| then states
        else if stop.AtRemove? then put
        else AddUsed(AddUsed(DropAt(put, i, key), i, -size), j, size)
  {}

  // What migrating a listing leads to.
  function Migrated(states: seq<NodeState>, i: nat, j: nat, listing: Listing, stops: nat -> Stop): (r: seq<NodeState>)
    requires i < |states| && j < |states| && i != j
    ensures |r| == |states|
  {
    if listing == [] then states
    else
      Moved(Migrated(states, i, j, listing[..|listing| - 1], stops), i, j, listing[|listing| - 1], stops(|listing| - 1))
  }

  // The usage rate in percent; an unknown total size reads as an empty node.
  function RateOf(node: NodeState): real {
    if node.total == 0 then 0.0 else node.used as real / node.total as real * 100.0
  }

  // A node is over the threshold: it has used more than that many hundredths of its size. One
  // of unknown size never is, unless the threshold is below zero.
  predicate Over(used: int, total: int, threshold: int) {
    if total == 0 then threshold < 0
    else if total > 0 then used * 100 > threshold * total
    else used * 100 < threshold * total
  }

  lemma RateIff(node: NodeState, threshold: int)
    ensures RateOf(node) > threshold as real <==> Over(node.used, node.total, threshold)
  {
    if node.total != 0 {
      var u, n, t := node.used as real, node.total as real, threshold as real;
      assert u / n * 100.0 * n == u * 100.0;
      if node.total > 0 { TimesPositive(u / n * 100.0, t, n); } else { TimesPositive(t, u / n * 100.0, -n); }
      assert (node.used * 100) as real == u * 100.0 && (threshold * node.total) as real == t * n;
    }
  }

  lemma TimesPositive(a: real, b: real, n: real)
    requires n > 0.0
    ensures a > b <==> a * n > b * n
  {}

  // What a round of the monitor does: each node in turn, if it is over the threshold by
  // then, moves what its listing shows to the node least connections picks.
  function Round(states: seq<NodeState>, threshold: int, listings: seq<Listing>, stops: nat -> nat -> Stop,
    n: nat): (r: seq<NodeState>)
    requires n <= |states| == |listings|
    ensures |r| == |states|
  {
    if n == 0 then states
    else
      var so, i := Round(states, threshold, listings, stops, n - 1), n - 1;
      var target := Scan(so, |so|).node;
      if Over(so[i].used, so[i].total, threshold) && target.Some? && target.value != i then
        Migrated(so, i, target.value, listings[i], stops(i))
      else so
  }

  lemma RoundGoesOn(states: seq<NodeState>, threshold: int, listings: seq<Listing>, stops: nat -> nat -> Stop, i: nat)
    requires i < |states| == |listings|
    ensures var so := Round(states, threshold, listings, stops, i);
      var target := Scan(so, |so|).node;
      Round(states, threshold, listings, stops, i + 1) ==
        if Over(so[i].used, so[i].total, threshold) && target.Some? && target.value != i then
          Migrated(so, i, target.value, listings[i], stops(i))
        else so
  {}

  lemma RoundBegins(states: seq<NodeState>, threshold: int, listings: seq<Listing>, stops: nat -> nat -> Stop)
    requires |states| == |listings|
    ensures Round(states, threshold, listings, stops, 0) == states
  {}

  predicate Listed(listing: Listing, key: string, size: int) {
    exists k :: 0 <= k < |listing| && listing[k] == Some((key, size))
  }

  // The source's object is listed with the size it has.
  predicate ListedOn(listing: Listing, from: map<string, Bytes>, key: string) {
    key in from && Listed(listing, key, |from[key]|)
  }

  lemma ListedMore(listing: Listing, key: string, size: int)
    requires listing != []
    ensures Listed(listing, key, size) <==>
      Listed(listing[..|listing| - 1], key, size) || listing[|listing| - 1] == Some((key, size))
  {
    var most := listing[..|listing| - 1];
    if k :| 0 <= k < |most| && most[k] == Some((key, size)) { assert listing[k] == most[k]; }
    if k :| 0 <= k < |listing| && listing[k] == Some((key, size)) && k < |most| { assert most[k] == listing[k]; }
  }

  // When nothing fails, the listed objects have left the source and lie on the target;
  // nothing else changed.
  lemma {:induction false} MigratedBlobs(states: seq<NodeState>, i: nat, j: nat, listing: Listing)
    requires i < |states| && j < |states| && i != j
    ensures var r, from, to := Migrated(states, i, j, listing, NO_STOPS), states[i].blobs, states[j].blobs;
      && (forall x :: 0 <= x < |states| && x != i && x != j ==> r[x] == states[x])
      && (forall key :: key in r[i].blobs <==> key in from && !ListedOn(listing, from, key))
      && (forall key :: key in r[i].blobs ==> r[i].blobs[key] == from[key])
      && (forall key :: key in r[j].blobs <==> key in to || ListedOn(listing, from, key))
      && (forall key :: key in r[j].blobs ==>
           r[j].blobs[key] == if ListedOn(listing, from, key) then from[key] else to[key])
  {
    if listing != [] {
      var most, last, from := listing[..|listing| - 1], listing[|listing| - 1], states[i].blobs;
      MigratedBlobs(states, i, j, most);
      forall key
        ensures ListedOn(listing, from, key) <==>
          ListedOn(most, from, key) || (key in from && last == Some((key, |from[key]|)))
      {
        if key in from { ListedMore(listing, key, |from[key]|); }
      }
      hide ListedOn;
    }
  }

  lemma MigratedMore(states: seq<NodeState>, i: nat, j: nat, listing: Listing, stops: nat -> Stop, k: nat)
    requires i < |states| && j < |states| && i != j && k < |listing|
    ensures Migrated(states, i, j, listing[..k + 1], stops) ==
      Moved(Migrated(states, i, j, listing[..k], stops), i, j, listing[k], stops(k))
  {
    assert listing[..k + 1][..k] == listing[..k];
  }

  // What a fault-free turn achieves: a node over the threshold has none of the objects left
  // that its listing showed, they lie on the node least connections picks, and a node that
  // is not over it, or is picked itself, changes nothing.
  lemma TurnEmptiesNode(states: seq<NodeState>, threshold: int, listings: seq<Listing>,
    stops: nat -> nat -> Stop, i: nat)
    requires i < |states| == |listings| && stops(i) == NO_STOPS
    ensures var so, r := Round(states, threshold, listings, stops, i), Round(states, threshold, listings, stops, i + 1);
      var target := Scan(so, |so|).node;
      && (so[i].total == 0 && threshold >= 0 ==> r == so)
      && (so[i].total > 0 && so[i].used * 100 <= threshold * so[i].total ==> r == so)
      && (target in {None, Some(i)} ==> r == so)
      && (so[i].total > 0 && so[i].used * 100 > threshold * so[i].total && target !in {None, Some(i)} ==>
        && (forall key :: ListedOn(listings[i], so[i].blobs, key) ==>
             key !in r[i].blobs && HeldBy(r, target.value, key, so[i].blobs[key]))
        && (forall key :: key in so[i].blobs && !ListedOn(listings[i], so[i].blobs, key) ==>
             HeldBy(r, i, key, so[i].blobs[key])))
  {
    var so := Round(states, threshold, listings, stops, i);
    var target := Scan(so, |so|).node;
    if target.Some? && target.value != i { MigratedBlobs(so, i, target.value, listings[i]); }
    hide Listed, Migrated;
  }

  // A node whose size is known and of which not more than the threshold is used, or whose
  // size is not known.
  predicate WithinThreshold(node: NodeState, threshold: int) {
    if node.total == 0 then threshold >= 0 else node.total > 0 && node.used * 100 <= threshold * node.total
  }

  // Up to the first node that is over the threshold, a round changes nothing.
  lemma {:induction false} QuietRound(states: seq<NodeState>, threshold: int, listings: seq<Listing>,
    stops: nat -> nat -> Stop, n: nat)
    requires n <= |states| == |listings| && forall i :: 0 <= i < n ==> WithinThreshold(states[i], threshold)
    ensures Round(states, threshold, listings, stops, n) == states
  {
    if n > 0 {
      QuietRound(states, threshold, listings, stops, n - 1);
      assert WithinThreshold(states[n - 1], threshold);
    }
  }

  // ---- Used sizes under migration -----------------------------------------

  // Moving an object charges the target by the full size, whatever it held at the key; one
  // that is put and cannot be removed is charged to nobody.
  lemma MovedExcess(states: seq<NodeState>, i: nat, j: nat, entry: Option<(string, int)>, stop: Stop, x: nat)
    requires i < |states| && j < |states| && i != j && x < |states|
    ensures var moves := Fits(states, i, entry) && !stop.AtRead? && !stop.AtPut?;
      Excess(Moved(states, i, j, entry, stop)[x]) == Excess(states[x]) +
        if moves && x == j then SizeAt(states[j].blobs, entry.value.0) - (if stop.AtRemove? then entry.value.1 else 0)
        else 0
  {
    if Fits(states, i, entry) && !stop.AtRead? && !stop.AtPut? {
      var key, data := entry.value.0, states[i].blobs[entry.value.0];
      BytesPut(states[j].blobs, key, data);
      BytesApart(states[i].blobs, key);
    }
    hide BytesIn;
  }

  // Where every used size was what the node holds, it is so after the move of one object
  // exactly when the target held nothing at the key, or, if the removal failed, as much.
  lemma BookedAfterMoveIff(states: seq<NodeState>, i: nat, j: nat, entry: Option<(string, int)>, stop: Stop)
    requires i < |states| && j < |states| && i != j && Booked(states)
    ensures Booked(Moved(states, i, j, entry, stop)) <==>
      (Fits(states, i, entry) && !stop.AtRead? && !stop.AtPut? ==>
        SizeAt(states[j].blobs, entry.value.0) == if stop.AtRemove? then entry.value.1 else 0)
  {
    hide Moved, Excess, Fits, SizeAt;
    var after := Moved(states, i, j, entry, stop);
    forall x: nat | x < |states| && x != j ensures Excess(after[x]) == 0 { MovedExcess(states, i, j, entry, stop, x); }
    MovedExcess(states, i, j, entry, stop, j);
    assert Excess(states[j]) == 0;
  }

  // After a whole migration in which nothing fails, exactly when the target held nothing at
  // the keys of the objects that moved.
  lemma BookedAfterMigrationIff(states: seq<NodeState>, i: nat, j: nat, listing: Listing)
    requires i < |states| && j < |states| && i != j && Booked(states)
    ensures Booked(Migrated(states, i, j, listing, NO_STOPS)) <==>
      forall key :: ListedOn(listing, states[i].blobs, key) ==> SizeAt(states[j].blobs, key) == 0
  {
    hide Migrated, Excess;
    var after := Migrated(states, i, j, listing, NO_STOPS);
    forall x: nat | x < |states| && x != j ensures Excess(after[x]) == 0 { MigratedExcess(states, i, j, listing, x); }
    MigratedExcess(states, i, j, listing, j);
    assert Excess(states[j]) == 0;
  }

  lemma {:induction false} MigratedExcess(states: seq<NodeState>, i: nat, j: nat, listing: Listing, x: nat)
    requires i < |states| && j < |states| && i != j && x < |states|
    ensures var before, after := Excess(states[x]), Excess(Migrated(states, i, j, listing, NO_STOPS)[x]);
      && after >= before
      && (after == before <==>
           x != j || forall key :: ListedOn(listing, states[i].blobs, key) ==> SizeAt(states[j].blobs, key) == 0)
  {
    if listing != [] {
      var most, last, from := listing[..|listing| - 1], listing[|listing| - 1], states[i].blobs;
      var so := Migrated(states, i, j, most, NO_STOPS);
      MigratedExcess(states, i, j, most, x);
      MigratedBlobs(states, i, j, most);
      MovedExcess(so, i, j, last, Through, x);
      forall key
        ensures ListedOn(listing, from, key) <==>
          ListedOn(most, from, key) || (key in from && last == Some((key, |from[key]|)))
      {
        if key in from { ListedMore(listing, key, |from[key]|); }
      }
      hide ListedOn, Excess, Moved;
    } else {
      assert forall key :: !ListedOn(listing, states[i].blobs, key);
    }
  }

  // A migration in which no removal fails takes no used size below what the node holds, and
  // neither does a round of them.
  lemma {:induction false} MigrationKeepsCovers(states: seq<NodeState>, i: nat, j: nat, listing: Listing,
    stops: nat -> Stop)
    requires i < |states| && j < |states| && i != j && Covers(states) && forall k :: !stops(k).AtRemove?
    ensures Covers(Migrated(states, i, j, listing, stops))
  {
    hide Excess, Moved, Fits;
    if listing != [] {
      var most := listing[..|listing| - 1];
      var so := Migrated(states, i, j, most, stops);
      MigrationKeepsCovers(states, i, j, most, stops);
      forall x: nat | x < |states| ensures Excess(Migrated(states, i, j, listing, stops)[x]) >= 0 {
        MovedExcess(so, i, j, listing[|listing| - 1], stops(|listing| - 1), x);
      }
    }
  }

  lemma {:induction false} RoundKeepsCovers(states: seq<NodeState>, threshold: int, listings: seq<Listing>,
    stops: nat -> nat -> Stop, n: nat)
    requires n <= |states| == |listings| && Covers(states) && forall x, k :: !stops(x)(k).AtRemove?
    ensures Covers(Round(states, threshold, listings, stops, n))
  {
    hide Migrated, Covers, Over, Scan;
    if n > 0 {
      RoundKeepsCovers(states, threshold, listings, stops, n - 1);
      var so := Round(states, threshold, listings, stops, n - 1);
      var target := Scan(so, |so|).node;
      if target.Some? && target.value != n - 1 {
        MigrationKeepsCovers(so, n - 1, target.value, listings[n - 1], stops(n - 1));
      }
    }
  }

  // Where used sizes cover what the nodes hold, -1 never comes up, and least connections
  // picks the first of the least used available nodes.
  lemma CoveredPicksLeast(states: seq<NodeState>, least: int)
    requires Covers(states) && IsLeast(states, |states|, least)
    ensures var node := Scan(states, |states|).node;
      && node.Some? && states[node.value].used == least
      && forall i :: 0 <= i < node.value && states[i].available ==> states[i].used > least
  {
    var i :| 0 <= i < |states| && states[i].available && states[i].used == least;
    assert Excess(states[i]) >= 0;
    ScanFindsLeast(states, |states|, least);
  }

  // What migrating from i to j may have done at any moment: only these two nodes changed; the
  // source's objects are on the source or, with the same content, on the target; and the
  // target's are still on the target, with the same content unless the source held the key.
  ghost predicate PairKeeps(before: seq<NodeState>, after: seq<NodeState>, i: nat, j: nat) {
    && i < |before| == |after| && j < |before| && i != j
    && (forall x :: 0 <= x < |before| && x != i && x != j ==> after[x].blobs == before[x].blobs)
    && after[i].blobs.Keys <= before[i].blobs.Keys
    && after[j].blobs.Keys <= before[i].blobs.Keys + before[j].blobs.Keys
    && (forall key :: key in before[i].blobs ==>
        || (key in after[i].blobs && after[i].blobs[key] == before[i].blobs[key])
        || (key in after[j].blobs && after[j].blobs[key] == before[i].blobs[key]))
    && (forall key :: key in after[i].blobs ==> after[i].blobs[key] == before[i].blobs[key])
    && (forall key :: key in before[j].blobs ==> key in after[j].blobs)
    && (forall key :: key in before[j].blobs && key !in before[i].blobs ==> after[j].blobs[key] == before[j].blobs[key])
  }

  // At every such moment the pair holds the same keys, and with equal copies the same
  // contents; no object has fewer copies than before, except one less where both nodes
  // held it.
  lemma PairLosesNothing(before: seq<NodeState>, after: seq<NodeState>, i: nat, j: nat)
    requires PairKeeps(before, after, i, j)
    ensures after[i].blobs.Keys + after[j].blobs.Keys == before[i].blobs.Keys + before[j].blobs.Keys
    ensures forall key, data ::
      (HeldBy(before, i, key, data) || HeldBy(before, j, key, data)) && EqualCopies(before, i, j, key) ==>
      HeldBy(after, i, key, data) || HeldBy(after, j, key, data)
    ensures forall key ::
      Copies(after, key) >= Copies(before, key) - if key in before[i].blobs && key in before[j].blobs then 1 else 0
  {
    forall key
      ensures
        Copies(after, key) >= Copies(before, key) - if key in before[i].blobs && key in before[j].blobs then 1 else 0
    {
      var mid := before[i := after[i]];
      CopiesAt(before, i, after[i], key);
      CopiesAt(mid, j, after[j], key);
      CopiesOf(mid[j := after[j]], after, key);
    }
  }

  predicate HeldBy(states: seq<NodeState>, i: nat, key: string, data: Bytes) {
    i < |states| && key in states[i].blobs && states[i].blobs[key] == data
  }

  predicate EqualCopies(states: seq<NodeState>, i: nat, j: nat, key: string) {
    && i < |states| && j < |states|
    && (key in states[i].blobs && key in states[j].blobs ==> states[i].blobs[key] == states[j].blobs[key])
  }

  lemma {:induction false} CopiesOf(a: seq<NodeState>, b: seq<NodeState>, key: string)
    requires |a| == |b| && forall x :: 0 <= x < |a| ==> a[x].blobs == b[x].blobs
    ensures Copies(a, key) == Copies(b, key)
  {
    if a != [] { CopiesOf(a[1..], b[1..], key); }
  }

  lemma PairKeepsSelf(states: seq<NodeState>, i: nat, j: nat)
    requires i < |states| && j < |states| && i != j
    ensures PairKeeps(states, states, i, j)
  {}

  lemma PairKeepsPut(before: seq<NodeState>, after: seq<NodeState>, i: nat, j: nat, key: string)
    requires PairKeeps(before, after, i, j) && key in after[i].blobs
    ensures PairKeeps(before, PutAt(after, j, key, after[i].blobs[key]), i, j)
  {}

  lemma PairKeepsDrop(before: seq<NodeState>, after: seq<NodeState>, i: nat, j: nat, key: string)
    requires PairKeeps(before, after, i, j) && key in after[i].blobs && HeldBy(after, j, key, after[i].blobs[key])
    ensures PairKeeps(before, DropAt(after, i, key), i, j)
  {}

  lemma PairKeepsUsed(before: seq<NodeState>, after: seq<NodeState>, i: nat, j: nat, later: seq<NodeState>)
    requires PairKeeps(before, after, i, j) && SameBlobs(after, later)
    ensures PairKeeps(before, later, i, j)
  {}

  ghost predicate SameBlobs(a: seq<NodeState>, b: seq<NodeState>) {
    |a| == |b| && forall x :: 0 <= x < |a| ==> a[x].blobs == b[x].blobs
  }

  lemma UsedKeepsBlobs(states: seq<NodeState>, i: nat, delta: int, j: nat, more: int)
    requires i < |states| && j < |states|
    ensures SameBlobs(states, AddUsed(AddUsed(states, i, delta), j, more))
  {}

  // A moment in a migration: the nodes when it began, its source and target, the nodes now.
  datatype Moment = Moment(start: seq<NodeState>, source: nat, target: nat, now: seq<NodeState>)

  // The moments of a log follow each other: each migration begins where the one before ended.
  ghost predicate Chain(log: seq<Moment>, from: nat, before: seq<NodeState>) {
    && (from < |log| ==> SameBlobs(before, log[from].start))
    && forall k :: from < k < |log| ==> log[k].start == log[k - 1].start || SameBlobs(log[k - 1].now, log[k].start)
  }

  // The stores after the last of them.
  function LastNow(log: seq<Moment>, from: nat, before: seq<NodeState>): seq<NodeState> {
    if from < |log| then log[|log| - 1].now else before
  }

  lemma ChainGrows(log: seq<Moment>, more: seq<Moment>, from: nat, before: seq<NodeState>, start: seq<NodeState>,
    end: seq<NodeState>)
    requires Chain(log, from, before) && log <= more && from <= |log|
    requires forall k :: |log| <= k < |more| ==> more[k].start == start
    requires SameBlobs(LastNow(log, from, before), start) && SameBlobs(LastNow(more, |log|, start), end)
    ensures Chain(more, from, before) && SameBlobs(LastNow(more, from, before), end)
  {
    hide SameBlobs;
    if |more| == |log| { SameBlobsTrans(LastNow(log, from, before), start, end); }
    if from < |log| { assert more[from] == log[from]; }
    forall k | from < k < |more|
      ensures more[k].start == more[k - 1].start || SameBlobs(more[k - 1].now, more[k].start)
    {
      if k < |log| { assert more[k] == log[k]; }
      if k - 1 < |log| { assert more[k - 1] == log[k - 1]; }
    }
  }

  lemma SameBlobsTrans(a: seq<NodeState>, b: seq<NodeState>, c: seq<NodeState>)
    requires SameBlobs(a, b) && SameBlobs(b, c)
    ensures SameBlobs(a, c)
  {}

  lemma ChainBegins(log: seq<Moment>, before: seq<NodeState>)
    ensures Chain(log, |log|, before) && LastNow(log, |log|, before) == before
  {}

  lemma SameBlobsSelf(a: seq<NodeState>)
    ensures SameBlobs(a, a)
  {}

  // ---- The cluster itself -------------------------------------------------

  class StorageNode {
    const total: int
    var available: bool
    var used: int
    var blobs: map<string, Bytes>

    constructor (available: bool, total: int, used: int)
      ensures State() == NodeState(available, total, used, map[])
    {
      this.available, this.total, this.used, blobs := available, total, used, map[];
    }

    function State(): NodeState reads this { NodeState(available, total, used, blobs) }

    // In percent; an unknown total size reads as an empty node.
    function UsageRate(): real reads this { RateOf(State()) }

    method UpdateUsedSize(delta: int)
      modifies `used
      ensures used == old(used) + delta
    {
      used := used + delta;
    }

    // Calls to the node's store fail without effect when `fault` is set, and a put also
    // when the announced size is not that of the data.
    method PutObject(key: string, data: Bytes, size: int, fault: bool) returns (ok: bool)
      modifies `blobs
      ensures ok == (!fault && size == |data|)
      ensures blobs == if ok then old(blobs)[key := data] else old(blobs)
    {
      ok := !fault && size == |data|;
      if ok { blobs := blobs[key := data]; }
    }

    method RemoveObject(key: string, fault: bool) returns (ok: bool)
      modifies `blobs
      ensures ok == !fault && blobs == if ok then old(blobs) - {key} else old(blobs)
    {
      if !fault { blobs := blobs - {key}; }
      ok := !fault;
    }
  }

  class Cluster {
    const nodes: seq<StorageNode>
    const strategy: Strategy
    const replicaCount: int
    var currentIdx: nat
    ghost var log: seq<Moment>                // every store change of every migration

    ghost predicate Valid() reads this {
      && (nodes != [] ==> currentIdx < |nodes|)
      && forall i, j :: 0 <= i < j < |nodes| ==> nodes[i] != nodes[j]
    }

    function States(): (r: seq<NodeState>)
      reads nodes
      ensures |r| == |nodes| && forall i :: 0 <= i < |r| ==> r[i] == nodes[i].State()
    {
      seq(|nodes|, i requires 0 <= i < |nodes| reads nodes => nodes[i].State())
    }

    constructor (nodes: seq<StorageNode>, strategy: Strategy, replicaCount: int)
      requires forall i, j :: 0 <= i < j < |nodes| ==> nodes[i] != nodes[j]
      ensures Valid() && currentIdx == 0 && log == []
      ensures this.nodes == nodes && this.strategy == strategy && this.replicaCount == replicaCount
    {
      this.nodes, this.strategy, this.replicaCount := nodes, strategy, replicaCount;
      currentIdx, log := 0, [];
    }

    method SelectRoundRobin() returns (picked: Option<nat>)
      requires Valid()
      modifies `currentIdx
      ensures Valid()
      ensures picked == None ==> Available(Flags(States())) == {} && currentIdx == old(currentIdx)
      ensures picked.Some? ==> IsNext(Flags(States()), old(currentIdx), Pick(picked.value, currentIdx))
    {
      hide Searched, IsNext, Available;
      ghost var a, start := Flags(States()), currentIdx;
      if nodes == [] {
        NoneAvailable(a);
        return None;
      }
      SearchBegins(a, start);
      for i := 0 to |nodes|
        invariant currentIdx < |nodes| && Searched(a, start, i, currentIdx)
      {
        SearchGoesOn(a, start, i, currentIdx);
        var node := nodes[currentIdx];
        picked := Some(currentIdx);
        currentIdx := (currentIdx + 1) % |nodes|;
        assert Flags(States()) == a;
        if node.available { return; }
      }
      SearchEnds(a, start, currentIdx);
      picked := None;
    }

    method SelectLeastConn() returns (picked: Option<nat>)
      ensures picked == Scan(States(), |nodes|).node
    {
      picked := None;
      var minUsedSize := -1;
      for i := 0 to |nodes|
        invariant Least(minUsedSize, picked) == Scan(States(), i)
      {
        var node := nodes[i];
        if !node.available { continue; }
        if minUsedSize == -1 || node.used < minUsedSize {
          minUsedSize, picked := node.used, Some(i);
        }
      }
    }

    method SelectNode() returns (picked: Option<nat>)
      requires Valid()
      modifies `currentIdx
      ensures Valid() && (picked == None <==> Available(Flags(States())) == {})
      ensures picked.Some? ==> picked.value < |nodes| && nodes[picked.value].available
      ensures picked.Some? ==>
        Selects(strategy == LeastConnStrategy, States(), old(currentIdx), picked.value, currentIdx)
      ensures strategy == LeastConnStrategy ==> picked == Scan(States(), |nodes|).node && currentIdx == old(currentIdx)
    {
      if nodes == [] { return None; }
      if strategy == LeastConnStrategy {
        picked := SelectLeastConn();
        if picked.Some? { assert picked.value in Available(Flags(States())); }
      } else {
        picked := SelectRoundRobin();
        if picked.Some? { assert picked.value in Available(Flags(States())); }
      }
    }

    // Puts the object on a node and charges the node for it.
    method PutOn(i: nat, key: string, data: Bytes, fault: bool) returns (ok: bool)
      requires Valid() && i < |nodes|
      modifies nodes[i]
      ensures ok == !fault
      ensures States() == if ok then AddUsed(PutAt(old(States()), i, key, data), i, |data|) else old(States())
    {
      ok := nodes[i].PutObject(key, data, |data|, fault);
      if ok { nodes[i].UpdateUsedSize(|data|); }
    }

    // The first put decides success and further ones are best effort: where the copies go is
    // what the strategy selects and which puts fail. `fails` says which do.
    method UploadFileWithReplication(key: string, data: Bytes, fails: nat -> bool)
      returns (ok: bool, ghost placed: seq<nat>, ghost picks: seq<Pick>)
      requires Valid()
      modifies `currentIdx, nodes
      ensures Valid()
      ensures InRange(placed, |nodes|) && States() == Uploaded(old(States()), placed, key, data)
      ensures ok <==> placed != []
      ensures ok <==> Available(Flags(old(States()))) != {} && !fails(0)
      ensures ok ==> |placed| == Works(fails, Replicas(replicaCount, |nodes|))
      ensures forall x :: x in placed ==> x < |nodes| && old(States())[x].available
      ensures strategy == LeastConnStrategy ==>
        placed == Greedy(old(States()), key, data, |placed|) && currentIdx == old(currentIdx)
      ensures strategy != LeastConnStrategy && Available(Flags(old(States()))) != {} ==>
        && ArePicks(Flags(old(States())), old(currentIdx), picks)
        && |picks| == (if ok then Replicas(replicaCount, |nodes|) else 1)
        && placed == Written(Nodes(picks), fails) && currentIdx == picks[|picks| - 1].next
    {
      hide Uploaded, Available, PutAt, AddUsed, Placing, Selects, Flags, Greedy, Written, ArePicks, Scan, Works, Nodes;
      ghost var states, start, least := States(), currentIdx, strategy == LeastConnStrategy;
      placed, picks := [], [];
      NoUpload(states, key, data);
      GreedyMore(states, key, data, 0);
      var replicas := if replicaCount > |nodes| then |nodes| else replicaCount;
      var first := SelectNode();
      if first == None { return false, [], []; }
      PlacingBegins(least, states, start, key, data, fails);
      placed, picks := Advance(least, states, start, start, key, data, fails, placed, picks, 0,
        first.value, currentIdx);
      ok := PutOn(first.value, key, data, fails(0));
      if !ok {
        PlacingMeans(least, states, start, currentIdx, key, data, fails, placed, picks, 1);
        return;
      }
      placed, picks := UploadReplicas(key, data, if replicas < 1 then 1 else replicas, fails, states, start,
        placed, picks);
      PlacingMeans(least, states, start, currentIdx, key, data, fails, placed, picks, Replicas(replicaCount, |nodes|));
    }

    // The further copies.
    method UploadReplicas(key: string, data: Bytes, replicas: nat, fails: nat -> bool, ghost states: seq<NodeState>,
      ghost start: nat, ghost first: seq<nat>, ghost firstPicks: seq<Pick>)
      returns (ghost placed: seq<nat>, ghost picks: seq<Pick>)
      requires Valid() && |states| == |nodes| && 1 <= replicas && first != []
      requires Placing(strategy == LeastConnStrategy, states, start, currentIdx, key, data, fails, first, firstPicks, 1)
      requires InRange(first, |states|) && States() == Uploaded(states, first, key, data)
      requires Available(Flags(states)) != {}
      modifies `currentIdx, nodes
      ensures Valid() && InRange(placed, |states|) && States() == Uploaded(states, placed, key, data) && placed != []
      ensures Placing(strategy == LeastConnStrategy, states, start, currentIdx, key, data, fails, placed, picks,
        replicas)
    {
      hide Uploaded, Available, PutAt, AddUsed, Placing, Selects, Flags, Greedy, Written, ArePicks, Scan, Works, Nodes;
      ghost var least := strategy == LeastConnStrategy;
      placed, picks := first, firstPicks;
      for i := 1 to replicas
        invariant Valid() && InRange(placed, |states|) && States() == Uploaded(states, placed, key, data)
        invariant placed != []
        invariant Placing(least, states, start, currentIdx, key, data, fails, placed, picks, i)
      {
        PlacingMeans(least, states, start, currentIdx, key, data, fails, placed, picks, i);
        ghost var at := currentIdx;
        var node := SelectNode();
        if node == None { continue; }
        placed, picks := Advance(least, states, start, at, key, data, fails, placed, picks, i, node.value, currentIdx);
        var done := PutOn(node.value, key, data, fails(i));
        if !done { continue; }
      }
    }

    ghost predicate LogKeeps(from: nat, before: seq<NodeState>) reads this {
      && from <= |log|
      && (forall k :: from <= k < |log| ==> Preserves(before, log[k].now))
      && (forall k :: from <= k < |log| ==> PairKeeps(log[k].start, log[k].now, log[k].source, log[k].target))
    }

    // Every listed object is copied to the target and then removed from the source. Whatever
    // fails, and at every step, what the two nodes held is still held by one of them; and the
    // used sizes together stay the same.
    method MigrateFiles(i: nat, j: nat, listing: Listing, stops: nat -> Stop)
      requires Valid() && i < |nodes| && j < |nodes| && i != j
      modifies this`log, nodes[i], nodes[j]
      ensures Valid() && Preserves(old(States()), States()) && Total(States()) == Total(old(States()))
      ensures Flags(States()) == Flags(old(States()))
      ensures PairKeeps(old(States()), States(), i, j)
      ensures old(log) <= log && LogKeeps(|old(log)|, old(States()))
      ensures forall k :: |old(log)| <= k < |log| ==> log[k] == Moment(old(States()), i, j, log[k].now)
      ensures SameBlobs(LastNow(log, |old(log)|, old(States())), States())
      ensures States() == Migrated(old(States()), i, j, listing, stops)
    {
      hide Preserves, Total, PutAt, DropAt, AddUsed, Migrated, MoveKey, PairKeeps, SameBlobs;
      SameBlobsSelf(States());
      ghost var states := States();
      PreservesSelf(states);
      PairKeepsSelf(states, i, j);
      NothingMigrated(states, i, j, stops);
      for k := 0 to |listing|
        invariant States() == Migrated(states, i, j, listing[..k], stops)
        invariant Valid() && Preserves(states, States()) && Total(States()) == Total(states)
        invariant Flags(States()) == Flags(states) && PairKeeps(states, States(), i, j)
        invariant old(log) <= log && LogKeeps(|old(log)|, states)
        invariant forall k :: |old(log)| <= k < |log| ==> log[k] == Moment(states, i, j, log[k].now)
        invariant SameBlobs(LastNow(log, |old(log)|, states), States())
      {
        MigratedMore(states, i, j, listing, stops, k);
        if listing[k] == None { continue; }
        var (key, size) := listing[k].value;
        if stops(k).AtRead? || key !in nodes[i].blobs { continue; }
        ghost var steps := MigrateOne(i, j, key, size, stops(k), states);
        assert forall x :: |old(log)| <= x < |log| - |steps| ==> log[x] == (log[..|log| - |steps|])[x];
      }
      assert listing[..|listing|] == listing;
    }

    ghost predicate GoodMoment(start: seq<NodeState>, i: nat, j: nat, m: Moment) {
      m == Moment(start, i, j, m.now) && Preserves(start, m.now) && PairKeeps(start, m.now, i, j)
    }

    // What a step that loses nothing promises.
    twostate predicate Kept() reads this, nodes {
      && Preserves(old(States()), States()) && Total(States()) == Total(old(States()))
      && Flags(States()) == Flags(old(States()))
    }

    method MigrateOne(i: nat, j: nat, key: string, size: int, stop: Stop, ghost start: seq<NodeState>)
      returns (ghost steps: seq<Moment>)
      requires Valid() && i < |nodes| && j < |nodes| && i != j && key in nodes[i].blobs && !stop.AtRead?
      requires Preserves(start, States()) && PairKeeps(start, States(), i, j)
      modifies this`log, nodes[i], nodes[j]
      ensures Valid() && Preserves(start, States()) && Total(States()) == Total(old(States()))
      ensures Flags(States()) == Flags(old(States())) && PairKeeps(start, States(), i, j)
      ensures log == old(log) + steps
      ensures forall k :: 0 <= k < |steps| ==> GoodMoment(start, i, j, steps[k])
      ensures if steps == [] then States() == old(States()) else SameBlobs(steps[|steps| - 1].now, States())
      ensures States() == Moved(old(States()), i, j, Some((key, size)), stop)
    {
      hide Preserves, Total, PutAt, DropAt, AddUsed, PairKeeps, SameBlobs, HeldBy, Flags, Moved;
      MovedSteps(States(), i, j, key, size, stop);
      steps := [];
      ghost var s0 := States();
      var ok := CopyTo(i, j, key, size, stop.AtPut?, start);
      ghost var s1 := States();
      PreservesTrans(start, s0, s1);
      PairKeepsPut(start, s0, i, j, key);
      if !ok { return; }
      steps := [Moment(start, i, j, s1)];
      SameBlobsSelf(s1);
      PutHolds(s0, j, key, s0[i].blobs[key], i);
      ok := RemoveFrom(i, j, key, stop.AtRemove?, start);
      ghost var s2 := States();
      PreservesTrans(start, s1, s2);
      PairKeepsDrop(start, s1, i, j, key);
      if !ok { return; }
      steps := [Moment(start, i, j, s1), Moment(start, i, j, s2)];
      Recharge(i, j, size);
      PreservesTrans(start, s2, States());
      UsedKeepsBlobs(s2, i, -size, j, size);
      PairKeepsUsed(start, s2, i, j, States());
    }

    method CopyTo(i: nat, j: nat, key: string, size: int, fault: bool, ghost start: seq<NodeState>) returns (ok: bool)
      requires Valid() && i < |nodes| && j < |nodes| && i != j && key in nodes[i].blobs
      modifies this`log, nodes[j]
      ensures Kept() && log == old(log) + if ok then [Moment(start, i, j, States())] else []
      ensures ok == (!fault && size == |nodes[i].blobs[key]|)
      ensures States() == if ok then PutAt(old(States()), j, key, nodes[i].blobs[key]) else old(States())
    {
      hide Preserves, Total;
      ghost var s0 := States();
      var data := nodes[i].blobs[key];
      ok := nodes[j].PutObject(key, data, size, fault);
      if ok { log := log + [Moment(start, i, j, States())]; }
      if ok { assert States() == PutAt(s0, j, key, data); } else { assert States() == s0; }
      PreservesSelf(s0);
      CopyPreserves(s0, i, j, key);
      TotalSame(s0, States());
    }

    method RemoveFrom(i: nat, j: nat, key: string, fault: bool, ghost start: seq<NodeState>) returns (ok: bool)
      requires Valid() && i < |nodes| && j < |nodes| && i != j && key in nodes[j].blobs
      modifies this`log, nodes[i]
      ensures Kept() && log == old(log) + if ok then [Moment(start, i, j, States())] else []
      ensures ok == !fault && States() == if ok then DropAt(old(States()), i, key) else old(States())
    {
      hide Preserves, Total;
      ghost var s0 := States();
      ok := nodes[i].RemoveObject(key, fault);
      if ok { log := log + [Moment(start, i, j, States())]; }
      if ok { assert States() == DropAt(s0, i, key); } else { assert States() == s0; }
      PreservesSelf(s0);
      DropPreserves(s0, i, j, key);
      TotalSame(s0, States());
    }

    method Recharge(i: nat, j: nat, size: int)
      requires Valid() && i < |nodes| && j < |nodes| && i != j
      modifies nodes[i], nodes[j]
      ensures Kept() && States() == AddUsed(AddUsed(old(States()), i, -size), j, size)
    {
      hide Preserves, Total;
      ghost var s0 := States();
      nodes[i].UpdateUsedSize(-size);
      nodes[j].UpdateUsedSize(size);
      assert States() == AddUsed(AddUsed(s0, i, -size), j, size);
      TotalAfter(s0, i, -size);
      TotalAfter(AddUsed(s0, i, -size), j, size);
      BlobsDecide(s0, States());
    }

    // One round of the monitor. What a node's listing shows when it is read, and which calls
    // fail, is given.
    method CheckAndMigrate(threshold: int, listings: seq<Listing>, stops: nat -> nat -> Stop)
      requires Valid() && |listings| == |nodes|
      modifies this`log, nodes
      ensures Valid() && Preserves(old(States()), States()) && Total(States()) == Total(old(States()))
      ensures Flags(States()) == Flags(old(States()))
      ensures old(log) <= log && LogKeeps(|old(log)|, old(States())) && Chain(log, |old(log)|, old(States()))
      ensures States() == Round(old(States()), threshold, listings, stops, |nodes|)
      ensures (forall i :: 0 <= i < |nodes| ==> WithinThreshold(old(States())[i], threshold)) ==>
        States() == old(States())
    {
      hide Preserves, Total, RateOf, Migrated, Scan, PairKeeps, SameBlobs, Chain, LastNow, Round, Flags;
      SameBlobsSelf(States());
      ChainBegins(log, States());
      ghost var states := States();
      PreservesSelf(states);
      RoundBegins(states, threshold, listings, stops);
      for i := 0 to |nodes|
        invariant Valid() && Preserves(states, States()) && Total(States()) == Total(states)
        invariant Flags(States()) == Flags(states)
        invariant old(log) <= log && LogKeeps(|old(log)|, states) && Chain(log, |old(log)|, states)
        invariant SameBlobs(LastNow(log, |old(log)|, states), States())
        invariant States() == Round(states, threshold, listings, stops, i)
      {
        ghost var before, logged, soFar := States(), |log|, log;
        RoundGoesOn(states, threshold, listings, stops, i);
        RateIff(before[i], threshold);
        assert before[i] == nodes[i].State();
        if nodes[i].UsageRate() <= threshold as real { continue; }
        var target := SelectLeastConn();
        if target == None || target.value == i { continue; }
        MigrateFiles(i, target.value, listings[i], stops(i));
        PreservesTrans(states, before, States());
        ChainGrows(soFar, log, |old(log)|, states, before, States());
        forall k | logged <= k < |log| ensures Preserves(states, log[k].now) {
          PreservesTrans(states, before, log[k].now);
        }
      }
      if forall i :: 0 <= i < |nodes| ==> WithinThreshold(states[i], threshold) {
        QuietRound(states, threshold, listings, stops, |nodes|);
      }
    }
  }

  lemma PutHolds(states: seq<NodeState>, j: nat, key: string, data: Bytes, i: nat)
    requires j < |states| && i < |states| && i != j
    ensures var r := PutAt(states, j, key, data);
      |r| == |states| && HeldBy(r, j, key, data) && r[i].blobs == states[i].blobs
  {}

  lemma NothingMigrated(states: seq<NodeState>, i: nat, j: nat, stops: nat -> Stop)
    requires i < |states| && j < |states| && i != j
    ensures Migrated(states, i, j, [], stops) == states
  {}

  lemma PreservesSelf(states: seq<NodeState>)
    ensures Preserves(states, states)
  {}

  lemma NoUpload(states: seq<NodeState>, key: string, data: Bytes)
    ensures Uploaded(states, [], key, data) == states
  {}
}
