// On how many nodes the copies of an upload lie, for either way of selecting and any puts
// that fail, and what that does to the used sizes.

module Placement {
  import opened Wrappers
  import opened RoundRobin
  import opened StorageCluster

  // ---- Circular selection -------------------------------------------------

  // The remainder of k by m.
  function Turn(k: nat, m: nat): nat
    requires m > 0
  {
    if k < m then k else Turn(k - m, m)
  }

  // The k-th selection is the k-th node of the turn, counted in a circle.
  lemma {:induction false} PickAt(a: seq<bool>, i: nat, picks: seq<Pick>, k: nat)
    requires ArePicks(a, i, picks) && k < |picks|
    ensures var m := |Available(a)|;
      m > 0 && |Circle(a, i)| == m && Turn(k, m) < m && picks[k].node == Circle(a, i)[Turn(k, m)]
    decreases k
  {
    hide ArePicks, Circle, Available;
    PicksFollowCircle(a, i, picks, k);
    SomeAvailable(Available(a));
    var m := |Available(a)|;
    if k >= m { PickAt(a, i, picks, k - m); }
  }

  lemma SameNodeIff(a: seq<bool>, i: nat, picks: seq<Pick>, j: nat, k: nat)
    requires ArePicks(a, i, picks) && j < |picks| && k < |picks|
    ensures var m := |Available(a)|;
      m > 0 && (picks[j].node == picks[k].node <==> Turn(j, m) == Turn(k, m))
  {
    PickAt(a, i, picks, j);
    PickAt(a, i, picks, k);
    CircleIsAvailable(a, i);
    hide ArePicks, Circle, Available;
  }

  // Some put on node x works.
  ghost predicate GetsCopy(nodes: seq<nat>, fails: nat -> bool, x: nat) {
    exists k :: 0 <= k < |nodes| && !fails(k) && nodes[k] == x
  }

  lemma {:induction false} WrittenAt(nodes: seq<nat>, fails: nat -> bool, x: nat)
    ensures x in Written(nodes, fails) <==> GetsCopy(nodes, fails, x)
  {
    if nodes != [] {
      var most := nodes[..|nodes| - 1];
      WrittenAt(most, fails, x);
      forall k | 0 <= k < |most| ensures most[k] == nodes[k] {}
      if k :| 0 <= k < |nodes| && !fails(k) && nodes[k] == x && k < |most| { assert most[k] == x; }
    }
  }

  lemma WrittenInRange(nodes: seq<nat>, fails: nat -> bool, n: nat)
    requires InRange(nodes, n)
    ensures InRange(Written(nodes, fails), n)
  {
    var r := Written(nodes, fails);
    forall k | 0 <= k < |r| ensures r[k] < n { assert r[k] in r; }
  }

  ghost predicate WorkApart(nodes: seq<nat>, fails: nat -> bool) {
    forall j, k :: 0 <= j < k < |nodes| && !fails(j) && !fails(k) ==> nodes[j] != nodes[k]
  }

  lemma {:induction false} WrittenApartIff(nodes: seq<nat>, fails: nat -> bool)
    ensures Distinct(Written(nodes, fails)) <==> WorkApart(nodes, fails)
  {
    hide WorkApart, Distinct, GetsCopy;
    if nodes == [] {
      NothingWritten(fails);
    } else {
      var most, last := nodes[..|nodes| - 1], nodes[|nodes| - 1];
      WrittenApartIff(most, fails);
      WrittenAt(most, fails, last);
      LastApart(nodes, fails);
      WrittenMore(most, last, fails);
      assert nodes == most + [last];
      AppendDistinct(Written(most, fails), last);
      assert Written(most, fails) + [] == Written(most, fails);
    }
  }

  lemma NothingWritten(fails: nat -> bool)
    ensures Distinct(Written([], fails)) && WorkApart([], fails)
  {}

  lemma LastApart(nodes: seq<nat>, fails: nat -> bool)
    requires nodes != []
    ensures var most, last := nodes[..|nodes| - 1], nodes[|nodes| - 1];
      WorkApart(nodes, fails) <==>
        WorkApart(most, fails) &&
        (fails(|most|) || !GetsCopy(most, fails, last))
  {
    var most := nodes[..|nodes| - 1];
    forall k | 0 <= k < |most| ensures most[k] == nodes[k] {}
  }

  lemma AppendDistinct(s: seq<nat>, x: nat)
    ensures Distinct(s + [x]) <==> Distinct(s) && x !in s
  {
    var t := s + [x];
    if Distinct(t) {
      forall j, k | 0 <= j < k < |s| ensures s[j] != s[k] { assert t[j] != t[k]; }
      forall j | 0 <= j < |s| ensures s[j] != x { assert t[j] != t[|s|]; }
    }
  }

  // No two puts that work are a multiple of m selections apart.
  ghost predicate Spread(m: nat, n: nat, fails: nat -> bool)
    requires m > 0
  {
    forall j, k :: 0 <= j < k < n && !fails(j) && !fails(k) ==> Turn(j, m) != Turn(k, m)
  }

  // With circular selection among m available nodes, no node gets two copies exactly when no
  // two puts that work are a multiple of m selections apart.
  lemma CircularApartIff(a: seq<bool>, i: nat, picks: seq<Pick>, fails: nat -> bool)
    requires ArePicks(a, i, picks) && Available(a) != {}
    ensures Distinct(Written(Nodes(picks), fails)) <==> Spread(|Available(a)|, |picks|, fails)
  {
    hide ArePicks, Available, Distinct;
    WrittenApartIff(Nodes(picks), fails);
    forall j, k | 0 <= j < |picks| && 0 <= k < |picks|
      ensures Nodes(picks)[j] == Nodes(picks)[k] <==> Turn(j, |Available(a)|) == Turn(k, |Available(a)|)
    {
      SameNodeIff(a, i, picks, j, k);
    }
  }

  // When no put fails, that is when there are no more selections than nodes.
  lemma SpreadIff(m: nat, n: nat, fails: nat -> bool)
    requires m > 0 && forall k :: 0 <= k < n ==> !fails(k)
    ensures Spread(m, n, fails) <==> n <= m
  {
    if n > m {
      assert !fails(0) && !fails(m);
      assert Turn(0, m) == Turn(m, m);
    } else {
      forall j, k | 0 <= j < k < n ensures Turn(j, m) != Turn(k, m) {}
    }
  }

  // Where every used size was what the node holds, it is so after an upload with circular
  // selection exactly when no two puts that worked are a multiple of m selections apart, or
  // the object is empty, and no node written to held content at the key before.
  lemma BookedCircularIff(states: seq<NodeState>, i: nat, picks: seq<Pick>, fails: nat -> bool,
    key: string, data: Bytes)
    requires Booked(states) && ArePicks(Flags(states), i, picks) && Available(Flags(states)) != {}
    ensures var placed := Written(Nodes(picks), fails);
      && InRange(placed, |states|)
      && (Booked(Uploaded(states, placed, key, data)) <==>
          && (data == [] || Spread(|Available(Flags(states))|, |picks|, fails))
          && forall x: nat :: x in placed ==> SizeAt(states[x].blobs, key) == 0)
  {
    hide Booked, Available, Uploaded, SizeAt, ArePicks, Spread, Distinct;
    PicksInRange(Flags(states), i, picks);
    WrittenInRange(Nodes(picks), fails, |states|);
    CircularApartIff(Flags(states), i, picks, fails);
    BookedAfterUploadIff(states, Written(Nodes(picks), fails), key, data);
  }

  // When no put fails: exactly when no more copies were asked for than nodes were available.
  lemma BookedCircularReliablyIff(states: seq<NodeState>, i: nat, picks: seq<Pick>, key: string, data: Bytes)
    requires Booked(states) && ArePicks(Flags(states), i, picks) && Available(Flags(states)) != {}
    ensures InRange(Nodes(picks), |states|)
    ensures Booked(Uploaded(states, Nodes(picks), key, data)) <==>
      && (data == [] || |picks| <= |Available(Flags(states))|)
      && forall x: nat :: x in Nodes(picks) ==> SizeAt(states[x].blobs, key) == 0
  {
    hide Booked, Available, Uploaded, SizeAt, Flags, ArePicks, Spread;
    var none := (k: nat) => false;
    PicksInRange(Flags(states), i, picks);
    WrittenAll(Nodes(picks), none);
    BookedCircularIff(states, i, picks, none, key, data);
    SomeAvailable(Available(Flags(states)));
    SpreadIff(|Available(Flags(states))|, |picks|, none);
  }

  lemma SomeAvailable(xs: set<nat>)
    requires xs != {}
    ensures |xs| > 0
  {}

  // ---- Least connections --------------------------------------------------

  // Node x, standing at u, is selected before node y, standing at v.
  predicate Sooner(u: int, x: nat, v: int, y: nat) {
    u < v || (u == v && x < y)
  }

  ghost predicate NoneBelowZero(states: seq<NodeState>) {
    forall x :: 0 <= x < |states| && states[x].available ==> states[x].used >= 0
  }

  // Where no used size is below zero, the scan selects the soonest available node.
  ghost predicate IsSoonest(states: seq<NodeState>, k: nat, z: nat) {
    && z < k <= |states| && states[z].available
    && forall y :: 0 <= y < k && states[y].available && y != z ==> Sooner(states[z].used, z, states[y].used, y)
  }

  lemma {:induction false} ScanIsSoonest(states: seq<NodeState>, k: nat)
    requires k <= |states| && NoneBelowZero(states)
    ensures var node := Scan(states, k).node; node.Some? ==> IsSoonest(states, k, node.value)
  {
    if k > 0 { ScanIsSoonest(states, k - 1); }
  }

  // The nodes that come before the first one once that has been charged, and the first.
  ghost function Near(states: seq<NodeState>, size: nat, first: nat): set<nat>
    requires first < |states|
  {
    set y: nat | y < |states| && states[y].available && InFront(states, size, first, y)
  }

  predicate InFront(states: seq<NodeState>, size: nat, first: nat, y: nat)
    requires first < |states| && y < |states|
  {
    y == first || Sooner(states[y].used, y, states[first].used + size, first)
  }

  // A number of nodes selected without repetition, each sooner than any that was not.
  ghost predicate Soonest(states: seq<NodeState>, size: nat, first: nat, placed: seq<nat>) {
    && first < |states| && Distinct(placed)
    && (forall x :: x in placed ==> x in Near(states, size, first))
    && (placed != [] ==> first in placed)
    && forall x, y :: x in placed && 0 <= y < |states| && states[y].available && y !in placed ==>
        x < |states| && Sooner(states[x].used, x, states[y].used, y)
  }

  // Standing after every node of `placed` got one copy.
  lemma AfterOnce(states: seq<NodeState>, placed: seq<nat>, key: string, data: Bytes, y: nat)
    requires InRange(placed, |states|) && Distinct(placed) && y < |states|
    ensures var so := Uploaded(states, placed, key, data);
      && so[y].available == states[y].available
      && so[y].used == states[y].used + if y in placed then |data| else 0
  {
    UploadedAt(states, placed, key, data, y);
    CountIn(placed, y);
  }

  // The next selection after `placed`: a new node as long as there is one in front, and then
  // one that got a copy before.
  lemma NextSoonest(states: seq<NodeState>, key: string, data: Bytes, first: nat, placed: seq<nat>, z: nat)
    requires InRange(placed, |states|) && Soonest(states, |data|, first, placed)
    requires IsSoonest(states, |states|, first)
    requires IsSoonest(Uploaded(states, placed, key, data), |states|, z)
    ensures z in placed <==> placed != [] && forall y :: y in Near(states, |data|, first) ==> y in placed
    ensures z !in placed ==> Soonest(states, |data|, first, placed + [z])
  {
    hide Uploaded, Distinct;
    forall y: nat | y < |states|
      ensures var so := Uploaded(states, placed, key, data);
        && so[y].available == states[y].available
        && so[y].used == states[y].used + if y in placed then |data| else 0
    {
      AfterOnce(states, placed, key, data, y);
    }
    AppendDistinct(placed, z);
    if z in placed {
      forall y | y in Near(states, |data|, first) ensures y in placed {}
    } else {
      if placed == [] { assert z == first; }
      assert z in Near(states, |data|, first);
    }
  }

  lemma {:induction false} GreedyIsSoonest(states: seq<NodeState>, key: string, data: Bytes, first: nat, n: nat)
    requires NoneBelowZero(states) && Scan(states, |states|).node == Some(first)
    requires n <= |Near(states, |data|, first)|
    ensures |Greedy(states, key, data, n)| == n && Soonest(states, |data|, first, Greedy(states, key, data, n))
  {
    if n > 0 {
      GreedyIsSoonest(states, key, data, first, n - 1);
      var placed := Greedy(states, key, data, n - 1);
      var z := GreedyNext(states, key, data, first, placed, n - 1);
      if z in placed {
        DistinctSize(placed, Near(states, |data|, first));
      }
    }
  }

  // The next selection after n copies on different nodes.
  lemma GreedyNext(states: seq<NodeState>, key: string, data: Bytes, first: nat, placed: seq<nat>, n: nat)
    returns (z: nat)
    requires NoneBelowZero(states) && Scan(states, |states|).node == Some(first)
    requires placed == Greedy(states, key, data, n) && Soonest(states, |data|, first, placed)
    ensures Greedy(states, key, data, n + 1) == placed + [z]
    ensures z in placed <==> placed != [] && forall y :: y in Near(states, |data|, first) ==> y in placed
    ensures z !in placed ==> Soonest(states, |data|, first, placed + [z])
  {
    hide Greedy, Uploaded, Near, Soonest;
    var so := Uploaded(states, placed, key, data);
    GreedyMore(states, key, data, n);
    ScanIsSoonest(states, |states|);
    StillNoneBelowZero(states, placed, key, data, first);
    ScanIsSoonest(so, |states|);
    z := Scan(so, |states|).node.value;
    NextSoonest(states, key, data, first, placed, z);
  }

  lemma StillNoneBelowZero(states: seq<NodeState>, placed: seq<nat>, key: string, data: Bytes, first: nat)
    requires InRange(placed, |states|) && NoneBelowZero(states) && first < |states| && states[first].available
    ensures var so := Uploaded(states, placed, key, data);
      NoneBelowZero(so) && Scan(so, |states|).node.Some?
  {
    var so := Uploaded(states, placed, key, data);
    forall x: nat | x < |states| ensures so[x].available == states[x].available && so[x].used >= states[x].used {
      UploadedAt(states, placed, key, data, x);
      NotNegative(Count(placed, x), |data|);
    }
    assert so[first].available;
  }

  lemma {:induction false} GreedyGrows(states: seq<NodeState>, key: string, data: Bytes, m: nat, n: nat)
    requires m <= n
    ensures Greedy(states, key, data, m) <= Greedy(states, key, data, n)
  {
    if m < n { GreedyGrows(states, key, data, m, n - 1); }
  }

  // Under least connections the copies lie on different nodes exactly when there are no more
  // of them than nodes in front of the first one's next turn; these are then the soonest.
  lemma LeastConnApartIff(states: seq<NodeState>, key: string, data: Bytes, first: nat, n: nat)
    requires NoneBelowZero(states) && Scan(states, |states|).node == Some(first)
    ensures var placed := Greedy(states, key, data, n);
      && (Distinct(placed) <==> n <= |Near(states, |data|, first)|)
      && (n <= |Near(states, |data|, first)| ==> |placed| == n && Soonest(states, |data|, first, placed))
  {
    hide Near, Greedy, Scan, NoneBelowZero;
    var near := Near(states, |data|, first);
    if n <= |near| {
      GreedyIsSoonest(states, key, data, first, n);
    } else {
      GreedyIsSoonest(states, key, data, first, |near|);
      var placed := Greedy(states, key, data, |near|);
      FirstIsNear(states, |data|, first);
      DistinctFills(placed, near);
      var z := GreedyNext(states, key, data, first, placed, |near|);
      AppendDistinct(placed, z);
      GreedyGrows(states, key, data, |near| + 1, n);
      PrefixDistinct(placed + [z], Greedy(states, key, data, n));
    }
  }

  lemma FirstIsNear(states: seq<NodeState>, size: nat, first: nat)
    requires Scan(states, |states|).node == Some(first)
    ensures first in Near(states, size, first)
  {}

  lemma DistinctFills(s: seq<nat>, xs: set<nat>)
    requires Distinct(s) && |s| == |xs| && forall x :: x in s ==> x in xs
    ensures forall x :: x in xs ==> x in s
  {
    var got := set x | x in s;
    DistinctSize(s, got);
    assert xs == got + (xs - got);
  }

  lemma PrefixDistinct(s: seq<nat>, t: seq<nat>)
    requires s <= t && !Distinct(s)
    ensures !Distinct(t)
  {
    var j, k :| 0 <= j < k < |s| && s[j] == s[k];
    assert t[j] == t[k];
  }

  // Where every used size was what the node holds, it is so after an upload under least
  // connections with n puts that work exactly when there are that many nodes in front, or
  // the object is empty, and no node written to held content at the key before.
  lemma BookedLeastConnIff(states: seq<NodeState>, key: string, data: Bytes, first: nat, n: nat)
    requires Booked(states) && Scan(states, |states|).node == Some(first)
    ensures var placed := Greedy(states, key, data, n);
      Booked(Uploaded(states, placed, key, data)) <==>
        && (data == [] || n <= |Near(states, |data|, first)|)
        && forall x: nat :: x in placed ==> SizeAt(states[x].blobs, key) == 0
  {
    BookedIsNotNegative(states);
    hide Booked, Near, Greedy, Uploaded, SizeAt, Distinct, Soonest;
    LeastConnApartIff(states, key, data, first, n);
    BookedAfterUploadIff(states, Greedy(states, key, data, n), key, data);
  }

  lemma BookedIsNotNegative(states: seq<NodeState>)
    requires Booked(states)
    ensures NoneBelowZero(states)
  {
    forall x | 0 <= x < |states| ensures states[x].used >= 0 { assert Excess(states[x]) == 0; }
  }
}
