// Runs of the cluster that end with wrong used sizes.

module ClusterLimits {
  import opened Wrappers
  import opened RoundRobin
  import opened StorageCluster

  const NONE_FAILS: nat -> bool := (k: nat) => false

  // ---- Two copies on one node ---------------------------------------------

  function Pair(u: int, a: map<string, Bytes>, v: int, b: map<string, Bytes>): seq<NodeState> {
    [NodeState(true, 100, u, a), NodeState(true, 100, v, b)]
  }

  lemma PairScan(states: seq<NodeState>)
    requires |states| == 2 && states[0].available && states[1].available && states[0].used >= 0
    ensures Scan(states, 2).node == Some(if states[1].used < states[0].used then 1 else 0)
  {
    assert Scan(states, 1) == Least(states[0].used, Some(0));
  }

  lemma UploadFirst(states: seq<NodeState>, key: string, data: Bytes)
    requires |states| == 2 && states[0].available && states[1].available && states[1].used >= states[0].used >= 0
    ensures Greedy(states, key, data, 1) == [0]
    ensures Uploaded(states, [0], key, data) == AddUsed(PutAt(states, 0, key, data), 0, |data|)
  {
    hide Greedy, Uploaded;
    NoUpload(states, key, data);
    GreedyMore(states, key, data, 0);
    PairScan(states);
    UploadedMore(states, [], key, data, 0);
    assert [] + [0] == [0];
  }

  lemma UploadBothOnOne(states: seq<NodeState>, key: string, data: Bytes)
    requires |states| == 2 && states[0].available && states[1].available && states[1].used >= 0
    requires states[1].used + |data| < states[0].used
    ensures Greedy(states, key, data, 2) == [1, 1]
    ensures Uploaded(states, [1, 1], key, data) ==
      states[1 := states[1].(used := states[1].used + 2 * |data|, blobs := states[1].blobs[key := data])]
  {
    hide Greedy, Uploaded;
    NoUpload(states, key, data);
    GreedyMore(states, key, data, 0);
    PairScan(states);
    UploadedMore(states, [], key, data, 1);
    assert [] + [1] == [1] && [1] + [1] == [1, 1];
    var once := Uploaded(states, [1], key, data);
    GreedyMore(states, key, data, 1);
    PairScan(once);
    UploadedMore(states, [1], key, data, 1);
    assert states[1].blobs[key := data][key := data] == states[1].blobs[key := data];
  }

  method NewPair() returns (c: Cluster)
    ensures fresh(c) && fresh(c.nodes) && c.Valid() && |c.nodes| == 2 && c.States() == Pair(0, map[], 0, map[])
    ensures c.strategy == LeastConnStrategy && c.replicaCount == 2
  {
    var a := new StorageNode(true, 100, 0);
    var b := new StorageNode(true, 100, 0);
    c := new Cluster([a, b], LeastConnStrategy, 2);
  }

  // Least connections with two copies and two nodes. The second copy of the large object
  // fails, and both copies of the small one go to the other node, which is charged twice.
  method LeastConnDoubles(large: Bytes, small: Bytes) returns (c: Cluster)
    requires 0 < |small| < |large|
    ensures c.Valid() && |c.nodes| == 2
    ensures c.States() == Pair(|large|, map["a" := large], 2 * |small|, map["b" := small])
    ensures !Booked(c.States())
  {
    hide Uploaded, Greedy, Available;
    c := NewPair();
    var secondFails := (k: nat) => k == 1;
    assert Works(secondFails, 2) == 1 && Works(NONE_FAILS, 2) == 2;
    var ok;
    ghost var placed, picks;
    UploadFirst(c.States(), "a", large);
    HasAvailable(c.States(), 0);
    ok, placed, picks := c.UploadFileWithReplication("a", large, secondFails);
    assert c.States() == Pair(|large|, map["a" := large], 0, map[]);
    UploadBothOnOne(c.States(), "b", small);
    HasAvailable(c.States(), 0);
    ok, placed, picks := c.UploadFileWithReplication("b", small, NONE_FAILS);
    assert c.States() == Pair(|large|, map["a" := large], 2 * |small|, map["b" := small]);
    BytesPut(map[], "b", small);
    assert Excess(c.States()[1]) != 0;
  }

  lemma HasAvailable(states: seq<NodeState>, i: nat)
    requires i < |states| && states[i].available
    ensures Available(Flags(states)) != {}
  {
    assert i in Available(Flags(states));
  }

  // ---- A used size of -1 --------------------------------------------------

  function Trio(used: seq<int>, a: map<string, Bytes>, b: map<string, Bytes>, d: map<string, Bytes>): seq<NodeState>
    requires |used| == 3
  {
    [NodeState(true, 10, used[0], a), NodeState(true, 100, used[1], b), NodeState(true, 100, used[2], d)]
  }

  lemma TrioScan(states: seq<NodeState>)
    requires |states| == 3 && forall i :: 0 <= i < 3 ==> states[i].available
    ensures states[0].used == 1 && states[1].used == 0 && states[2].used == 0 ==> Scan(states, 3).node == Some(1)
    ensures states[0].used == 1 && states[1].used == 10 && states[2].used == 0 ==> Scan(states, 3).node == Some(2)
    ensures states[0].used == 1 && states[1].used == -1 && states[2].used == 11 ==> Scan(states, 3).node == Some(2)
  {
    assert Scan(states, 1) == Least(states[0].used, Some(0)) by { assert Scan(states, 0) == Least(-1, None); }
    if states[0].used == 1 && states[1].used < 1 {
      assert Scan(states, 2) == Least(states[1].used, Some(1));
    } else if states[0].used == 1 {
      assert Scan(states, 2) == Least(states[0].used, Some(0));
    }
  }

  // Only the first node is over the threshold; it moves k to the second one, up to the removal.
  lemma FirstRound(k: Bytes, listings: seq<Listing>, stops: nat -> nat -> Stop)
    requires |k| == 1 && listings == [[Some(("k", 1))], [], []] && stops(0)(0) == AtRemove
    ensures Round(Trio([1, 0, 0], map["k" := k], map[], map[]), 5, listings, stops, 3) ==
      Trio([1, 0, 0], map["k" := k], map["k" := k], map[])
  {
    hide Round, Scan, Migrated;
    var s0 := Trio([1, 0, 0], map["k" := k], map[], map[]);
    var s1 := Trio([1, 0, 0], map["k" := k], map["k" := k], map[]);
    RoundBegins(s0, 5, listings, stops);
    RoundGoesOn(s0, 5, listings, stops, 0);
    TrioScan(s0);
    NothingMigrated(s0, 0, 1, stops(0));
    MigratedMore(s0, 0, 1, listings[0], stops(0), 0);
    assert listings[0][..0] == [] && listings[0][..1] == listings[0];
    assert Fits(s0, 0, listings[0][0]);
    assert PutAt(s0, 1, "k", k) == s1;
    RoundGoesOn(s0, 5, listings, stops, 1);
    RoundGoesOn(s0, 5, listings, stops, 2);
  }

  // The second node moves what it holds to the third, and is charged for the copy as well.
  lemma SecondMoves(k: Bytes, b: Bytes, stops: nat -> Stop)
    requires |k| == 1 && |b| == 10 && stops(0) == Through && stops(1) == Through
    ensures Migrated(Trio([1, 10, 0], map["k" := k], map["k" := k, "b" := b], map[]), 1, 2,
      [Some(("b", 10)), Some(("k", 1))], stops) ==
      Trio([1, -1, 11], map["k" := k], map[], map["b" := b, "k" := k])
  {
    hide Migrated;
    var listing := [Some(("b", 10)), Some(("k", 1))];
    var s0 := Trio([1, 10, 0], map["k" := k], map["k" := k, "b" := b], map[]);
    var s1 := Trio([1, 0, 10], map["k" := k], map["k" := k], map["b" := b]);
    var s2 := Trio([1, -1, 11], map["k" := k], map[], map["b" := b, "k" := k]);
    assert "k" != "b";
    NothingMigrated(s0, 1, 2, stops);
    MigratedMore(s0, 1, 2, listing, stops, 0);
    MigratedMore(s0, 1, 2, listing, stops, 1);
    assert listing[..0] == [] && listing[..2] == listing;
    assert MoveKey(s0, 1, 2, "b") == s1 by {
      assert s0[1].blobs - {"b"} == map["k" := k];
      assert map[]["b" := b] == map["b" := b];
    }
    assert MoveKey(s1, 1, 2, "k") == s2 by {
      assert s1[1].blobs - {"k"} == map[];
      assert s1[2].blobs["k" := k] == map["b" := b, "k" := k];
    }
  }

  // On the first node's turn the read fails; the second one empties itself onto the third;
  // the third is then the fullest, and picked as the one to move to.
  lemma SecondRound(k: Bytes, b: Bytes, listings: seq<Listing>, stops: nat -> nat -> Stop)
    requires |k| == 1 && |b| == 10
    requires listings == [[Some(("k", 1))], [Some(("b", 10)), Some(("k", 1))], []]
    requires stops(0)(0) == AtRead && stops(1)(0) == Through && stops(1)(1) == Through
    ensures Round(Trio([1, 10, 0], map["k" := k], map["k" := k, "b" := b], map[]), 5, listings, stops, 3) ==
      Trio([1, -1, 11], map["k" := k], map[], map["b" := b, "k" := k])
  {
    hide Round, Scan, Migrated;
    var s0 := Trio([1, 10, 0], map["k" := k], map["k" := k, "b" := b], map[]);
    var s2 := Trio([1, -1, 11], map["k" := k], map[], map["b" := b, "k" := k]);
    RoundBegins(s0, 5, listings, stops);
    TrioScan(s0);
    TrioScan(s2);
    NothingMigrated(s0, 0, 2, stops(0));
    MigratedMore(s0, 0, 2, listings[0], stops(0), 0);
    assert listings[0][..0] == [] && listings[0][..1] == listings[0];
    SecondMoves(k, b, stops(1));
    RoundGoesOn(s0, 5, listings, stops, 0);
    RoundGoesOn(s0, 5, listings, stops, 1);
    RoundGoesOn(s0, 5, listings, stops, 2);
  }

  method NewTrio() returns (c: Cluster)
    ensures fresh(c) && fresh(c.nodes) && c.Valid() && |c.nodes| == 3
    ensures c.States() == Trio([0, 0, 0], map[], map[], map[])
    ensures c.strategy == RoundRobinStrategy && c.replicaCount == 1 && c.currentIdx == 0
  {
    var a := new StorageNode(true, 10, 0);
    var b := new StorageNode(true, 100, 0);
    var d := new StorageNode(true, 100, 0);
    c := new Cluster([a, b, d], RoundRobinStrategy, 1);
  }

  lemma FirstIsHere(a: seq<bool>, i: nat, picks: seq<Pick>)
    requires ArePicks(a, i, picks) && |picks| == 1 && i < |a| && a[i]
    ensures Nodes(picks) == [i] && picks[0].next == After(|a|, i) && Written(Nodes(picks), NONE_FAILS) == [i]
  {
    assert IsNext(a, Before(i, picks, 0), picks[0]);
    WrittenAll(Nodes(picks), NONE_FAILS);
  }

  // One copy to the node at which the selection stands.
  method UploadHere(c: Cluster, key: string, data: Bytes)
    requires c.Valid() && c.strategy == RoundRobinStrategy && c.replicaCount == 1 && c.currentIdx + 1 < |c.nodes|
    requires c.States()[c.currentIdx].available
    modifies c, c.nodes
    ensures c.Valid() && c.currentIdx == old(c.currentIdx) + 1
    ensures var so, i := old(c.States()), old(c.currentIdx);
      c.States() == AddUsed(PutAt(so, i, key, data), i, |data|)
  {
    hide Uploaded, ArePicks, Available, Nodes, Written;
    ghost var states, i := c.States(), c.currentIdx;
    HasAvailable(states, i);
    var ok, placed, picks := c.UploadFileWithReplication(key, data, NONE_FAILS);
    FirstIsHere(Flags(states), i, picks);
    NoUpload(states, key, data);
    UploadedMore(states, [], key, data, i);
    assert [] + [i] == [i];
  }

  method UntilSecondRound(k: Bytes, b: Bytes) returns (c: Cluster)
    requires |k| == 1 && |b| == 10
    ensures fresh(c) && fresh(c.nodes) && c.Valid() && |c.nodes| == 3
    ensures c.States() == Trio([1, 10, 0], map["k" := k], map["k" := k, "b" := b], map[])
  {
    hide Round, Preserves, Total;
    var listings: seq<Listing> := [[Some(("k", 1))], [], []];
    var stops := (x: nat) => (y: nat) => AtRemove;
    c := NewTrio();
    UploadHere(c, "k", k);
    assert c.States() == Trio([1, 0, 0], map["k" := k], map[], map[]);
    FirstRound(k, listings, stops);
    c.CheckAndMigrate(5, listings, stops);
    UploadHere(c, "b", b);
    assert c.States() == Trio([1, 10, 0], map["k" := k], map["k" := k, "b" := b], map[]);
  }

  // Three nodes, the threshold at five percent. A byte is uploaded to the first node; in the
  // first round its move to the second stops at the removal; ten bytes are uploaded to the
  // second; in the second round it moves everything it holds to the third, and stands at -1.
  // Least connections now picks the fullest node.
  method MinusOneIsReached(k: Bytes, b: Bytes) returns (c: Cluster, picked: Option<nat>)
    requires |k| == 1 && |b| == 10
    ensures c.Valid() && |c.nodes| == 3
    ensures c.States() == Trio([1, -1, 11], map["k" := k], map[], map["b" := b, "k" := k])
    ensures picked == Some(2)
  {
    hide Round, Scan, Preserves, Total;
    var listings: seq<Listing> := [[Some(("k", 1))], [Some(("b", 10)), Some(("k", 1))], []];
    var stops := (x: nat) => (y: nat) => if x == 0 then AtRead else Through;
    c := UntilSecondRound(k, b);
    SecondRound(k, b, listings, stops);
    c.CheckAndMigrate(5, listings, stops);
    TrioScan(c.States());
    picked := c.SelectLeastConn();
  }
}
