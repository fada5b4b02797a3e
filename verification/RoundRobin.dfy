// Circular selection over nodes of which some are available, as a function of the
// availability flags and the position the last selection left behind.

module RoundRobin {

  // The available nodes from lo up to hi.
  function Span(a: seq<bool>, lo: nat, hi: nat): seq<nat>
    requires lo <= hi <= |a|
    decreases hi - lo
  {
    if lo == hi then [] else (if a[lo] then [lo] else []) + Span(a, lo + 1, hi)
  }

  // One full turn starting at i.
  function Circle(a: seq<bool>, i: nat): seq<nat>
    requires i <= |a|
  {
    Span(a, i, |a|) + Span(a, 0, i)
  }

  function Available(a: seq<bool>): set<nat> {
    set i: nat | i < |a| && a[i]
  }

  predicate Distinct(s: seq<nat>) {
    forall j, k :: 0 <= j < k < |s| ==> s[j] != s[k]
  }

  lemma {:induction false} SpanSplit(a: seq<bool>, lo: nat, mid: nat, hi: nat)
    requires lo <= mid <= hi <= |a|
    ensures Span(a, lo, hi) == Span(a, lo, mid) + Span(a, mid, hi)
    decreases mid - lo
  {
    if lo < mid { SpanSplit(a, lo + 1, mid, hi); }
  }

  lemma {:induction false} SpanAbout(a: seq<bool>, lo: nat, hi: nat)
    requires lo <= hi <= |a|
    ensures forall x :: x in Span(a, lo, hi) <==> lo <= x < hi && a[x]
    ensures Distinct(Span(a, lo, hi))
    decreases hi - lo
  {
    if lo < hi { SpanAbout(a, lo + 1, hi); }
  }

  // A full turn meets every available node once.
  lemma CircleIsAvailable(a: seq<bool>, i: nat)
    requires i <= |a|
    ensures Distinct(Circle(a, i))
    ensures forall x :: x in Circle(a, i) <==> x in Available(a)
    ensures |Circle(a, i)| == |Available(a)|
  {
    SpanAbout(a, i, |a|);
    SpanAbout(a, 0, i);
    DistinctJoin(Span(a, i, |a|), Span(a, 0, i));
    DistinctSize(Circle(a, i), Available(a));
  }

  lemma DistinctJoin(s: seq<nat>, t: seq<nat>)
    requires Distinct(s) && Distinct(t) && forall x, y :: x in s && y in t ==> x != y
    ensures Distinct(s + t)
  {
    var u := s + t;
    forall j, k | 0 <= j < k < |u| ensures u[j] != u[k] {
      if j < |s| <= k { assert s[j] in s && t[k - |s|] in t; }
    }
  }

  lemma {:induction false} DistinctSize(s: seq<nat>, xs: set<nat>)
    requires Distinct(s) && forall x :: x in s <==> x in xs
    ensures |s| == |xs|
  {
    if s == [] {
      assert xs == {};
    } else {
      var rest := xs - {s[0]};
      assert s[0] in xs;
      forall x ensures x in s[1..] <==> x in rest {
        assert x in s <==> x == s[0] || x in s[1..];
      }
      DistinctSize(s[1..], rest);
    }
  }

  // A selection: the node picked and the position left behind.
  datatype Pick = Pick(node: nat, next: nat)

  function After(n: nat, i: nat): nat { if i + 1 == n then 0 else i + 1 }

  // The first available node from i on, in circular order.
  predicate IsNext(a: seq<bool>, i: nat, p: Pick) {
    && i < |a| && p.node < |a| && a[p.node] && p.next == After(|a|, p.node)
    && if i <= p.node then Span(a, i, p.node) == [] else Span(a, i, |a|) == [] && Span(a, 0, p.node) == []
  }

  lemma SpanOne(a: seq<bool>, i: nat)
    requires i < |a| && a[i]
    ensures Span(a, i, i + 1) == [i]
  {
    assert Span(a, i + 1, i + 1) == [];
  }

  // Selecting rotates the circle: what is picked goes to its end.
  lemma NextRotates(a: seq<bool>, i: nat, p: Pick)
    requires IsNext(a, i, p)
    ensures p.next < |a|
    ensures Circle(a, i) != [] && p.node == Circle(a, i)[0]
    ensures Circle(a, p.next) == Circle(a, i)[1..] + [p.node]
  {
    if i <= p.node { NextAhead(a, i, p); } else { NextBehind(a, i, p); }
  }

  lemma NextAhead(a: seq<bool>, i: nat, p: Pick)
    requires IsNext(a, i, p) && i <= p.node
    ensures Circle(a, i) == [p.node] + (Span(a, p.node + 1, |a|) + Span(a, 0, i))
    ensures Circle(a, p.next) == (Span(a, p.node + 1, |a|) + Span(a, 0, i)) + [p.node]
  {
    var n, x := |a|, p.node;
    SpanOne(a, x);
    SpanSplit(a, i, x, n);
    SpanSplit(a, x, x + 1, n);
    SpanSplit(a, 0, i, x + 1);
    SpanSplit(a, i, x, x + 1);
    TurnFrom(a, x);
  }

  lemma NextBehind(a: seq<bool>, i: nat, p: Pick)
    requires IsNext(a, i, p) && p.node < i
    ensures Circle(a, i) == [p.node] + Span(a, p.node + 1, i)
    ensures Circle(a, p.next) == Span(a, p.node + 1, i) + [p.node]
  {
    var n, x := |a|, p.node;
    SpanOne(a, x);
    SpanSplit(a, 0, x, i);
    SpanSplit(a, x, x + 1, i);
    SpanSplit(a, x + 1, i, n);
    SpanSplit(a, 0, x, x + 1);
    TurnFrom(a, x);
  }

  lemma TurnFrom(a: seq<bool>, x: nat)
    requires x < |a|
    ensures Circle(a, After(|a|, x)) == Span(a, x + 1, |a|) + Span(a, 0, x + 1)
  {}

  function Before(i: nat, picks: seq<Pick>, k: nat): nat
    requires k <= |picks|
  {
    if k == 0 then i else picks[k - 1].next
  }

  // Selecting again and again, with the same availability.
  ghost predicate ArePicks(a: seq<bool>, i: nat, picks: seq<Pick>) {
    i < |a| && forall k :: 0 <= k < |picks| ==> IsNext(a, Before(i, picks, k), picks[k])
  }

  function Nodes(picks: seq<Pick>): (r: seq<nat>)
    ensures |r| == |picks|
    ensures forall k :: 0 <= k < |picks| ==> r[k] == picks[k].node
  {
    seq(|picks|, k requires 0 <= k < |picks| => picks[k].node)
  }

  lemma WindowPick(a: seq<bool>, i: nat, picks: seq<Pick>, lo: nat, hi: nat, k: nat)
    requires ArePicks(a, i, picks) && lo <= hi <= |picks| && k < hi - lo
    ensures picks[lo..hi][k] == picks[lo + k]
    ensures Before(Before(i, picks, lo), picks[lo..hi], k) == Before(i, picks, lo + k)
    ensures IsNext(a, Before(i, picks, lo + k), picks[lo + k])
  {
    hide IsNext;
    if k > 0 { assert picks[lo..hi][k - 1] == picks[lo + k - 1]; }
  }

  function NodeSet(picks: seq<Pick>): set<nat> {
    set x | x in Nodes(picks)
  }

  lemma PicksWindow(a: seq<bool>, i: nat, picks: seq<Pick>, lo: nat, hi: nat)
    requires ArePicks(a, i, picks) && lo <= hi <= |picks|
    ensures ArePicks(a, Before(i, picks, lo), picks[lo..hi])
  {
    if lo > 0 {
      WindowPick(a, i, picks, lo - 1, hi, 0);
      NextRotates(a, Before(i, picks, lo - 1), picks[lo - 1]);
    }
    hide IsNext;
    forall k | 0 <= k < hi - lo
      ensures IsNext(a, Before(Before(i, picks, lo), picks[lo..hi], k), picks[lo..hi][k])
    {
      hide ArePicks;
      WindowPick(a, i, picks, lo, hi, k);
    }
    hide Before;
  }

  // The k-th of consecutive picks is the k-th node of the turn, and then it starts again.
  lemma {:induction false} PicksFollowCircle(a: seq<bool>, i: nat, picks: seq<Pick>, k: nat)
    requires ArePicks(a, i, picks) && k < |picks|
    ensures Available(a) != {} && |Circle(a, i)| == |Available(a)|
    ensures k < |Available(a)| ==> picks[k].node == Circle(a, i)[k]
    ensures k >= |Available(a)| ==> picks[k].node == picks[k - |Available(a)|].node
    decreases k
  {
    hide IsNext, Circle, Available;
    CircleIsAvailable(a, i);
    var p, m := picks[0], |Available(a)|;
    assert IsNext(a, Before(i, picks, 0), picks[0]);
    NextRotates(a, i, p);
    if k > 0 {
      var rest := picks[1..];
      PicksWindow(a, i, picks, 1, |picks|);
      assert rest == picks[1..|picks|];
      assert rest[k - 1] == picks[k];
      hide ArePicks;
      PicksFollowCircle(a, p.next, rest, k - 1);
      if k > m { assert rest[k - 1 - m] == picks[k - m]; }
    }
  }

  // The first picks are distinct available nodes, as many as there are of either.
  lemma PicksSpread(a: seq<bool>, i: nat, picks: seq<Pick>)
    requires ArePicks(a, i, picks)
    ensures var got := NodeSet(picks);
      && got <= Available(a)
      && (|picks| <= |Available(a)| ==> Distinct(Nodes(picks)))
      && (|picks| >= |Available(a)| ==> got == Available(a))
      && |got| == if |picks| <= |Available(a)| then |picks| else |Available(a)|
  {
    var m, nodes := |Available(a)|, Nodes(picks);
    CircleIsAvailable(a, i);
    forall k | 0 <= k < |picks| ensures nodes[k] in Available(a) && (k < m ==> nodes[k] == Circle(a, i)[k]) {
      assert IsNext(a, Before(i, picks, k), picks[k]);
      PicksFollowCircle(a, i, picks, k);
    }
    if |picks| <= m {
      DistinctSize(nodes, NodeSet(picks));
    }
    if |picks| >= m {
      forall x | x in Available(a) ensures x in nodes {
        var k :| 0 <= k < m && Circle(a, i)[k] == x;
        assert nodes[k] == x;
      }
    }
  }

  // Fairness: any as many consecutive selections as there are available nodes return each
  // of them exactly once.
  lemma RoundRobinIsFair(a: seq<bool>, i: nat, picks: seq<Pick>, k: nat)
    requires ArePicks(a, i, picks) && k + |Available(a)| <= |picks|
    ensures var window := picks[k..k + |Available(a)|];
      Distinct(Nodes(window)) && NodeSet(window) == Available(a)
  {
    hide ArePicks, Available, Nodes, NodeSet, Distinct, IsNext;
    var m := |Available(a)|;
    PicksWindow(a, i, picks, k, k + m);
    PicksSpread(a, Before(i, picks, k), picks[k..k + m]);
  }

  // The search for the next node after `steps` misses.
  predicate Searched(a: seq<bool>, start: nat, steps: nat, at: nat) {
    && start < |a| && steps <= |a|
    && if start + steps < |a| then at == start + steps && Span(a, start, at) == []
       else at == start + steps - |a| && Span(a, start, |a|) == [] && Span(a, 0, at) == []
  }

  lemma SearchBegins(a: seq<bool>, start: nat)
    requires start < |a|
    ensures Searched(a, start, 0, start)
  {}

  lemma SearchGoesOn(a: seq<bool>, start: nat, steps: nat, at: nat)
    requires Searched(a, start, steps, at) && steps < |a|
    ensures at < |a| && (at + 1) % |a| == After(|a|, at)
    ensures a[at] ==> IsNext(a, start, Pick(at, After(|a|, at)))
    ensures !a[at] ==> Searched(a, start, steps + 1, After(|a|, at))
  {
    assert Span(a, at + 1, at + 1) == [];
    if start <= at { SpanSplit(a, start, at, at + 1); }
    SpanSplit(a, 0, at, at + 1);
  }

  lemma SearchEnds(a: seq<bool>, start: nat, at: nat)
    requires Searched(a, start, |a|, at)
    ensures at == start && Available(a) == {}
  {
    SpanSplit(a, 0, start, |a|);
    SpanAbout(a, 0, |a|);
  }

  lemma FirstPick(a: seq<bool>, i: nat, p: Pick)
    requires IsNext(a, i, p)
    ensures ArePicks(a, i, [p]) && Nodes([p]) == [p.node]
  {
    assert Before(i, [p], 0) == i;
  }

  lemma OneMorePick(a: seq<bool>, i: nat, picks: seq<Pick>, p: Pick)
    requires ArePicks(a, i, picks) && picks != [] && IsNext(a, picks[|picks| - 1].next, p)
    ensures ArePicks(a, i, picks + [p]) && Nodes(picks + [p]) == Nodes(picks) + [p.node]
  {
    hide IsNext;
    var more := picks + [p];
    forall k | 0 <= k < |more| ensures IsNext(a, Before(i, more, k), more[k]) {
      if k < |picks| {
        assert IsNext(a, Before(i, picks, k), picks[k]);
        assert Before(i, more, k) == Before(i, picks, k);
      }
    }
  }
}
