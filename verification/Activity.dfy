// Daily activity counters: events are delivered at least once, and each is to be added
// once, to a database row and to a Redis hash per user and day.

module Activity {
  import opened Wrappers

  // Counters of one user on one day, or what one event adds to them.
  datatype Counts = Counts(
    uploads: int, uploadBytes: int, deletes: int, deleteBytes: int, shares: int, downloads: int, downloadBytes: int)

  function Plus(a: Counts, b: Counts): Counts {
    Counts(a.uploads + b.uploads, a.uploadBytes + b.uploadBytes, a.deletes + b.deletes, a.deleteBytes + b.deleteBytes,
           a.shares + b.shares, a.downloads + b.downloads, a.downloadBytes + b.downloadBytes)
  }

  // How many events the counters have seen.
  function Seen(c: Counts): int { c.uploads + c.deletes + c.shares + c.downloads }

  lemma PlusLaws(a: Counts, b: Counts, c: Counts)
    ensures Plus(Plus(a, b), c) == Plus(a, Plus(b, c)) && Plus(a, b) == Plus(b, a)
    ensures Plus(a, ZERO) == a == Plus(ZERO, a)
    ensures Seen(Plus(a, b)) == Seen(a) + Seen(b)
  {}

  const ZERO := Counts(0, 0, 0, 0, 0, 0, 0)

  // An event id is a fresh token, 0 standing for the empty one; `day` is None for the zero time.
  datatype Event = Event(id: nat, user: nat, action: Action, bytes: int, day: Option<int>)

  type Key = (nat, int)

  // The four actions that count; anything else a message may say.
  datatype Action = Upload | Delete | ShareLink | Download | Other(name: string)

  predicate ValidAction(action: Action) {
    !action.Other?
  }

  predicate Counted(e: Event) {
    e.user != 0 && ValidAction(e.action)
  }

  function BuildIncrements(action: Action, bytes: int): (r: Counts)
    ensures Seen(r) == if ValidAction(action) then 1 else 0
    ensures action == Upload ==> r == ZERO.(uploads := 1, uploadBytes := Larger(0, bytes))
    ensures action == Delete ==> r == ZERO.(deletes := 1, deleteBytes := Larger(0, bytes))
    ensures action == Download ==> r == ZERO.(downloads := 1, downloadBytes := Larger(0, bytes))
    ensures r.uploadBytes + r.deleteBytes + r.downloadBytes ==
      if ValidAction(action) && action != ShareLink && bytes > 0 then bytes else 0
  {
    var size := if bytes < 0 then 0 else bytes;
    match action
    case Upload => ZERO.(uploads := 1, uploadBytes := size)
    case Delete => ZERO.(deletes := 1, deleteBytes := size)
    case ShareLink => ZERO.(shares := 1)
    case Download => ZERO.(downloads := 1, downloadBytes := size)
    case Other(_) => ZERO
  }

  predicate On(e: Event, k: Key) {
    e.user == k.0 && e.day == Some(k.1)
  }

  function Share(e: Event, k: Key): Counts {
    if On(e, k) then BuildIncrements(e.action, e.bytes) else ZERO
  }

  // What a list of events adds up to for one user and day.
  function Sum(events: seq<Event>, k: Key): Counts {
    if events == [] then ZERO else Plus(Sum(events[..|events| - 1], k), Share(events[|events| - 1], k))
  }

  // The listed events of one user, day and action.
  function OfKind(events: seq<Event>, k: Key, action: Action): seq<Event> {
    if events == [] then []
    else
      var most, last := events[..|events| - 1], events[|events| - 1];
      OfKind(most, k, action) +
      if last.user == k.0 && last.day == Some(k.1) && last.action == action then [last] else []
  }

  // Their bytes, negative ones counted as none.
  function BytesOf(events: seq<Event>): int {
    if events == [] then 0
    else BytesOf(events[..|events| - 1]) + Larger(0, events[|events| - 1].bytes)
  }

  // The counters say how many events of each action the user sent on the day, and how many
  // bytes they were about; shares are about none.
  ghost predicate Reports(c: Counts, events: seq<Event>, k: Key) {
    && c.uploads == |OfKind(events, k, Upload)| && c.uploadBytes == BytesOf(OfKind(events, k, Upload))
    && c.deletes == |OfKind(events, k, Delete)| && c.deleteBytes == BytesOf(OfKind(events, k, Delete))
    && c.shares == |OfKind(events, k, ShareLink)|
    && c.downloads == |OfKind(events, k, Download)| && c.downloadBytes == BytesOf(OfKind(events, k, Download))
  }

  // The running sums are these numbers.
  lemma {:induction false} SumReports(events: seq<Event>, k: Key)
    ensures Reports(Sum(events, k), events, k)
  {
    hide Reports, Plus, Share;
    if events == [] {
      NothingReported(k);
    } else {
      var most, last := events[..|events| - 1], events[|events| - 1];
      SumReports(most, k);
      ReportMore(Sum(most, k), most, last, k);
      assert events == most + [last];
    }
  }

  lemma NothingReported(k: Key)
    ensures Reports(ZERO, [], k)
  {}

  lemma ReportMore(c: Counts, events: seq<Event>, e: Event, k: Key)
    requires Reports(c, events, k)
    ensures Reports(Plus(c, Share(e, k)), events + [e], k)
  {
    KindMore(events, e, k);
    hide OfKind, BytesOf;
  }

  lemma KindMore(events: seq<Event>, e: Event, k: Key)
    ensures forall a ::
      OfKind(events + [e], k, a) == OfKind(events, k, a) + if On(e, k) && e.action == a then [e] else []
    ensures forall a ::
      BytesOf(OfKind(events + [e], k, a)) ==
      BytesOf(OfKind(events, k, a)) + if On(e, k) && e.action == a then Larger(0, e.bytes) else 0
  {
    assert (events + [e])[..|events|] == events;
    forall a
      ensures BytesOf(OfKind(events + [e], k, a)) ==
        BytesOf(OfKind(events, k, a)) + if On(e, k) && e.action == a then Larger(0, e.bytes) else 0
    {
      BytesMore(OfKind(events, k, a), e);
      assert OfKind(events, k, a) + [] == OfKind(events, k, a);
    }
  }

  lemma BytesMore(events: seq<Event>, e: Event)
    ensures BytesOf(events + [e]) == BytesOf(events) + Larger(0, e.bytes)
  {
    assert (events + [e])[..|events|] == events;
  }

  lemma ReportsIff(c: Counts, events: seq<Event>, k: Key)
    ensures Reports(c, events, k) <==> c == Sum(events, k)
  {
    SumReports(events, k);
    hide Sum, OfKind, BytesOf;
  }

  lemma SumMore(events: seq<Event>, e: Event, k: Key)
    ensures Sum(events + [e], k) == Plus(Sum(events, k), Share(e, k))
  {
    assert (events + [e])[..|events|] == events;
  }

  lemma {:induction false} SumSplit(a: seq<Event>, b: seq<Event>, k: Key)
    ensures Sum(a + b, k) == Plus(Sum(a, k), Sum(b, k))
  {
    hide Plus, Share;
    if b == [] {
      assert a + b == a;
      PlusLaws(Sum(a, k), ZERO, ZERO);
    } else {
      var most, last := b[..|b| - 1], b[|b| - 1];
      assert a + b == (a + most) + [last];
      SumMore(a + most, last, k);
      SumSplit(a, most, k);
      PlusLaws(Sum(a, k), Sum(most, k), Share(last, k));
    }
  }

  function Without(events: seq<Event>, i: nat): (r: seq<Event>)
    requires i < |events|
    ensures multiset(r) == multiset(events) - multiset{events[i]}
  {
    assert events == events[..i] + [events[i]] + events[i + 1..];
    events[..i] + events[i + 1..]
  }

  lemma SumWithout(events: seq<Event>, i: nat, k: Key)
    requires i < |events|
    ensures Sum(events, k) == Plus(Sum(Without(events, i), k), Share(events[i], k))
  {
    hide Plus, Share;
    var front, back, e := events[..i], events[i + 1..], events[i];
    assert events == (front + [e]) + back;
    SumSplit(front + [e], back, k);
    SumMore(front, e, k);
    SumSplit(front, back, k);
    PlusLaws(Sum(front, k), Share(e, k), Sum(back, k));
    PlusLaws(Share(e, k), Sum(back, k), ZERO);
    PlusLaws(Sum(front, k), Sum(back, k), Share(e, k));
  }

  // The order of events does not matter.
  lemma {:induction false} SumIgnoresOrder(a: seq<Event>, b: seq<Event>, k: Key)
    requires multiset(a) == multiset(b)
    ensures Sum(a, k) == Sum(b, k)
  {
    hide Plus, Share;
    if a == [] {
      assert |b| == |multiset(b)|;
    } else {
      var most, last := a[..|a| - 1], a[|a| - 1];
      assert a == most + [last];
      assert last in multiset(b);
      var i :| 0 <= i < |b| && b[i] == last;
      SumWithout(b, i, k);
      SumIgnoresOrder(most, Without(b, i), k);
    }
  }

  predicate DistinctIds(events: seq<Event>) {
    forall i, j :: 0 <= i < j < |events| ==> events[i].id != events[j].id
  }

  lemma {:induction false} OnceEach(events: seq<Event>, e: Event)
    requires DistinctIds(events)
    ensures multiset(events)[e] == if e in events then 1 else 0
  {
    if events != [] {
      var most, last := events[..|events| - 1], events[|events| - 1];
      assert events == most + [last];
      OnceEach(most, e);
    }
  }

  lemma SameEventsSameSum(a: seq<Event>, b: seq<Event>, k: Key)
    requires DistinctIds(a) && DistinctIds(b) && forall e :: e in a <==> e in b
    ensures Sum(a, k) == Sum(b, k)
  {
    forall e ensures multiset(a)[e] == multiset(b)[e] { OnceEach(a, e); OnceEach(b, e); }
    SumIgnoresOrder(a, b, k);
  }

  // Every event counts: a proper part of the events never reaches the same number on the
  // day of an event that it leaves out.
  lemma {:induction false} SomeMissingIsFewer(part: seq<Event>, all: seq<Event>, e: Event, k: Key)
    requires multiset(part) + multiset{e} <= multiset(all) && On(e, k) && ValidAction(e.action)
    ensures Seen(Sum(part, k)) < Seen(Sum(all, k))
    decreases |part|
  {
    hide Plus, Share, Seen, ValidAction;
    var x := if part == [] then e else part[|part| - 1];
    assert x in multiset(all);
    var i :| 0 <= i < |all| && all[i] == x;
    SumWithout(all, i, k);
    PlusLaws(Sum(Without(all, i), k), Share(x, k), ZERO);
    if part == [] {
      SumNotNegative(Without(all, i), k);
      CountedOnce(e, k);
      NothingSeen();
    } else {
      var most := part[..|part| - 1];
      assert part == most + [x];
      PlusLaws(Sum(most, k), Share(x, k), ZERO);
      SomeMissingIsFewer(most, Without(all, i), e, k);
    }
  }

  lemma CountedOnce(e: Event, k: Key)
    requires On(e, k)
    ensures Seen(Share(e, k)) == if ValidAction(e.action) then 1 else 0
  {
    assert Share(e, k) == BuildIncrements(e.action, e.bytes);
  }

  lemma NotCounted(e: Event, k: Key)
    requires !On(e, k)
    ensures Share(e, k) == ZERO
  {}

  lemma NothingSeen()
    ensures Seen(ZERO) == 0
  {}

  lemma {:induction false} SumNotNegative(events: seq<Event>, k: Key)
    ensures Seen(Sum(events, k)) >= 0
  {
    hide Plus, Share, Seen, ValidAction;
    NothingSeen();
    if events != [] {
      PlusLaws(Sum(events[..|events| - 1], k), Share(events[|events| - 1], k), ZERO);
      SumNotNegative(events[..|events| - 1], k);
      var last := events[|events| - 1];
      if On(last, k) { CountedOnce(last, k); } else { NotCounted(last, k); }
    }
  }

  // ---- Tables, keys and the queue as values -------------------------------

  function At(m: map<Key, Counts>, k: Key): Counts {
    if k in m then m[k] else ZERO
  }

  // INSERT ... ON DUPLICATE KEY UPDATE c = c + ?, and likewise HINCRBY.
  function Added(m: map<Key, Counts>, k: Key, inc: Counts): map<Key, Counts> {
    m[k := Plus(At(m, k), inc)]
  }

  ghost predicate Tallies(m: map<Key, Counts>, events: seq<Event>) {
    forall k :: Reports(At(m, k), events, k)
  }

  lemma TalliesIff(m: map<Key, Counts>, events: seq<Event>)
    ensures Tallies(m, events) <==> forall k :: At(m, k) == Sum(events, k)
  {
    hide Reports, Sum;
    forall k ensures Reports(At(m, k), events, k) <==> At(m, k) == Sum(events, k) {
      ReportsIff(At(m, k), events, k);
    }
  }

  lemma AddedTallies(m: map<Key, Counts>, events: seq<Event>, e: Event, k: Key)
    requires On(e, k) && Tallies(m, events)
    ensures Tallies(Added(m, k, BuildIncrements(e.action, e.bytes)), events + [e])
  {
    hide Plus, BuildIncrements, Tallies, Sum;
    TalliesIff(m, events);
    TalliesIff(Added(m, k, BuildIncrements(e.action, e.bytes)), events + [e]);
    forall x: Key ensures At(Added(m, k, BuildIncrements(e.action, e.bytes)), x) == Sum(events + [e], x) {
      SumMore(events, e, x);
      if x != k {
        NotCounted(e, x);
        PlusLaws(Sum(events, x), ZERO, ZERO);
      }
    }
  }

  // ---- Which events a hash holds ------------------------------------------

  function InHash(held: map<Key, seq<Event>>, k: Key): seq<Event> {
    if k in held then held[k] else []
  }

  // A hash holds the sum of some of the events applied on its day: those whose pipeline
  // worked since the hash last came to be.
  ghost predicate HashBooks(hashes: map<Key, Counts>, held: map<Key, seq<Event>>, applied: seq<Event>) {
    && held.Keys == hashes.Keys
    && forall k :: k in hashes ==> HashRight(hashes[k], held[k], applied, k)
  }

  ghost predicate HashRight(hash: Counts, held: seq<Event>, applied: seq<Event>, k: Key) {
    && Reports(hash, held, k)
    && multiset(held) <= multiset(applied)
    && forall e :: e in held ==> On(e, k)
  }

  lemma HashBooksGrow(hashes: map<Key, Counts>, held: map<Key, seq<Event>>, applied: seq<Event>, e: Event, k: Key)
    requires HashBooks(hashes, held, applied) && On(e, k)
    ensures HashBooks(hashes, held, applied + [e])
    ensures HashBooks(Added(hashes, k, BuildIncrements(e.action, e.bytes)), held[k := InHash(held, k) + [e]],
      applied + [e])
  {
    hide Plus, BuildIncrements, Sum, On, Reports;
    var inc := BuildIncrements(e.action, e.bytes);
    assert Sum([], k) == ZERO by { EmptySum(k); }
    SumMore(InHash(held, k), e, k);
    assert Share(e, k) == inc;
    if k in hashes { ReportsIff(hashes[k], held[k], k); }
    ReportsIff(Added(hashes, k, inc)[k], InHash(held, k) + [e], k);
  }

  lemma EmptySum(k: Key)
    ensures Sum([], k) == ZERO
  {}

  // Some event applied on the day is not in the hash, or not as often.
  ghost predicate Missing(held: seq<Event>, applied: seq<Event>, k: Key) {
    exists e :: On(e, k) && multiset(held)[e] < multiset(applied)[e]
  }

  function OnDay(events: seq<Event>, k: Key): seq<Event> {
    if events == [] then []
    else OnDay(events[..|events| - 1], k) + if On(events[|events| - 1], k) then [events[|events| - 1]] else []
  }

  lemma {:induction false} OnDaySums(events: seq<Event>, k: Key)
    ensures Sum(OnDay(events, k), k) == Sum(events, k)
  {
    hide Plus, Share, On;
    if events != [] {
      var most, last := events[..|events| - 1], events[|events| - 1];
      OnDaySums(most, k);
      if On(last, k) {
        SumMore(OnDay(most, k), last, k);
      } else {
        assert OnDay(events, k) == OnDay(most, k);
        NotCounted(last, k);
        PlusLaws(Sum(most, k), ZERO, ZERO);
      }
    }
  }

  lemma {:induction false} OnDayHas(events: seq<Event>, k: Key, e: Event)
    ensures multiset(OnDay(events, k))[e] == if On(e, k) then multiset(events)[e] else 0
  {
    hide On;
    if events != [] {
      var most, last := events[..|events| - 1], events[|events| - 1];
      assert events == most + [last];
      OnDayHas(most, k, e);
    }
  }

  // A hash is right exactly when no event applied on its day is missing from it.
  lemma HashExactIff(hash: Counts, held: seq<Event>, applied: seq<Event>, k: Key)
    requires HashRight(hash, held, applied, k) && forall e :: e in applied ==> ValidAction(e.action)
    ensures Reports(hash, applied, k) <==> !Missing(held, applied, k)
  {
    hide Sum, Seen, ValidAction, On, Reports;
    ReportsIff(hash, held, k);
    ReportsIff(hash, applied, k);
    if e :| On(e, k) && multiset(held)[e] < multiset(applied)[e] {
      assert e in multiset(applied);
      assert multiset(held) + multiset{e} <= multiset(applied);
      SomeMissingIsFewer(held, applied, e, k);
    } else {
      OnDaySums(applied, k);
      assert multiset(held) == multiset(OnDay(applied, k)) by {
        forall e ensures multiset(held)[e] == multiset(OnDay(applied, k))[e] {
          assert e in multiset(held) ==> e in held;
          OnDayHas(applied, k, e);
        }
      }
      SumIgnoresOrder(held, OnDay(applied, k), k);
    }
  }

  lemma AppliedAreValid(sent: seq<Event>, queue: multiset<Event>, applied: seq<Event>, stuck: set<nat>)
    requires Accounted(sent, queue, applied, stuck)
    ensures forall e :: e in applied ==> ValidAction(e.action)
  {}

  predicate HasId(events: seq<Event>, id: nat) {
    exists i :: 0 <= i < |events| && events[i].id == id
  }

  // The books of deduplication: every applied event once, its id remembered ...
  ghost predicate Deduped(applied: seq<Event>, dedup: set<nat>, stuck: set<nat>) {
    && DistinctIds(applied) && stuck <= dedup
    && forall i :: 0 <= i < |applied| ==> applied[i].id in dedup && applied[i].id !in stuck
  }

  // ... and an id that is remembered without its event having been applied is stuck.
  ghost predicate Remembered(applied: seq<Event>, dedup: set<nat>, stuck: set<nat>) {
    forall id :: id in dedup ==> id in stuck || HasId(applied, id)
  }

  lemma AppliedOnce(applied: seq<Event>, dedup: set<nat>, stuck: set<nat>, e: Event)
    requires Deduped(applied, dedup, stuck) && e.id !in dedup
    ensures Deduped(applied + [e], dedup + {e.id}, stuck)
    ensures Deduped(applied, dedup + {e.id}, stuck + {e.id})
  {}

  lemma RememberedMore(applied: seq<Event>, dedup: set<nat>, stuck: set<nat>, e: Event)
    requires Remembered(applied, dedup, stuck)
    ensures Remembered(applied + [e], dedup, stuck) && Remembered(applied + [e], dedup + {e.id}, stuck)
    ensures Remembered(applied, dedup + {e.id}, stuck + {e.id})
  {
    var more := applied + [e];
    assert more[|applied|] == e;
    forall id | HasId(applied, id) ensures HasId(more, id) {
      var i :| 0 <= i < |applied| && applied[i].id == id;
      assert more[i].id == id;
    }
  }

  ghost predicate Books(applied: seq<Event>, dedup: set<nat>, stuck: set<nat>, dedupWorks: bool) {
    Remembered(applied, dedup, stuck) && (dedupWorks ==> Deduped(applied, dedup, stuck))
  }

  // An event marked, then applied, stuck, or unmarked again.
  lemma BooksMarked(applied: seq<Event>, dedup: set<nat>, stuck: set<nat>, dedupWorks: bool, e: Event)
    requires Books(applied, dedup, stuck, dedupWorks) && e.id !in dedup
    ensures Books(applied + [e], dedup + {e.id}, stuck, dedupWorks)
    ensures Books(applied, dedup + {e.id}, stuck + {e.id}, dedupWorks)
    ensures dedup + {e.id} - {e.id} == dedup
  {
    RememberedMore(applied, dedup, stuck, e);
    if dedupWorks { AppliedOnce(applied, dedup, stuck, e); }
  }

  // An event applied without a mark, because none could be set.
  lemma BooksUnmarked(applied: seq<Event>, dedup: set<nat>, stuck: set<nat>, e: Event)
    requires Books(applied, dedup, stuck, false)
    ensures Books(applied + [e], dedup, stuck, false)
  {
    RememberedMore(applied, dedup, stuck, e);
  }

  // What became of everything that was sent: it is queued, applied or stuck, and nothing
  // else was applied.
  ghost predicate Accounted(sent: seq<Event>, queue: multiset<Event>, applied: seq<Event>, stuck: set<nat>) {
    && DistinctIds(sent)
    && (forall e :: e in sent ==> Counted(e) && e.day.Some? && e.id != 0)
    && (forall e :: e in queue || e in applied ==> e in sent)
    && (forall e :: e in sent ==> e in queue || e in applied || e.id in stuck)
    && (forall id :: id in stuck ==> HasId(sent, id))
  }

  lemma SameIdSameEvent(sent: seq<Event>, x: Event, y: Event)
    requires DistinctIds(sent) && x in sent && y in sent && x.id == y.id
    ensures x == y
  {}

  lemma PartOf(part: seq<Event>, all: seq<Event>, e: Event)
    requires DistinctIds(part) && DistinctIds(all) && e in all && e !in part && forall x :: x in part ==> x in all
    ensures multiset(part) + multiset{e} <= multiset(all)
  {
    forall x
      ensures multiset(part)[x] == (if x in part then 1 else 0) && multiset(all)[x] == (if x in all then 1 else 0)
    {
      OnceEach(part, x);
      OnceEach(all, x);
    }
  }

  // A stuck event is one that was sent and not applied.
  lemma StuckIsMissing(sent: seq<Event>, queue: multiset<Event>, applied: seq<Event>, dedup: set<nat>,
    stuck: set<nat>, id: nat)
    returns (e: Event)
    requires Accounted(sent, queue, applied, stuck) && Deduped(applied, dedup, stuck) && id in stuck
    ensures e in sent && e !in applied && ValidAction(e.action) && e.day.Some?
    ensures multiset(applied) + multiset{e} <= multiset(sent)
  {
    var i :| 0 <= i < |sent| && sent[i].id == id;
    e := sent[i];
    assert e in sent && Counted(e);
    assert e !in applied;
    PartOf(applied, sent, e);
  }

  // Once the queue is empty, every row is the sum over all events sent, each counted
  // exactly once, if and only if no event is stuck.
  lemma DrainedIff(sent: seq<Event>, queue: multiset<Event>, applied: seq<Event>, dedup: set<nat>, stuck: set<nat>,
    rows: map<Key, Counts>)
    requires Accounted(sent, queue, applied, stuck) && Deduped(applied, dedup, stuck) && Tallies(rows, applied)
    requires queue == multiset{}
    ensures Tallies(rows, sent) <==> stuck == {}
  {
    hide Sum, Accounted, Deduped, Tallies, Seen;
    if stuck == {} {
      SameWhenDrained(sent, queue, applied, stuck);
      assert DistinctIds(applied) by { OnceApplied(applied, dedup, stuck); }
      TalliesOnlySums(rows, applied, sent);
    } else {
      var id :| id in stuck;
      var e := StuckIsMissing(sent, queue, applied, dedup, stuck, id);
      FewerIsSeen(rows, applied, sent, e);
    }
  }

  lemma OnceApplied(applied: seq<Event>, dedup: set<nat>, stuck: set<nat>)
    requires Deduped(applied, dedup, stuck)
    ensures DistinctIds(applied)
  {}

  lemma TalliesOnlySums(rows: map<Key, Counts>, applied: seq<Event>, sent: seq<Event>)
    requires Tallies(rows, applied) && DistinctIds(applied) && DistinctIds(sent) && forall e :: e in applied <==>
      e in sent
    ensures Tallies(rows, sent)
  {
    hide Sum, DistinctIds, Tallies;
    TalliesIff(rows, applied);
    TalliesIff(rows, sent);
    forall k ensures At(rows, k) == Sum(sent, k) { SameEventsSameSum(applied, sent, k); }
  }

  lemma FewerIsSeen(rows: map<Key, Counts>, applied: seq<Event>, sent: seq<Event>, e: Event)
    requires Tallies(rows, applied) && multiset(applied) + multiset{e} <= multiset(sent)
    requires ValidAction(e.action) && e.day.Some?
    ensures !Tallies(rows, sent)
  {
    hide Sum, Seen, Tallies;
    TalliesIff(rows, applied);
    TalliesIff(rows, sent);
    var k := (e.user, e.day.value);
    SomeMissingIsFewer(applied, sent, e, k);
    assert At(rows, k) == Sum(applied, k);
  }

  lemma SameWhenDrained(sent: seq<Event>, queue: multiset<Event>, applied: seq<Event>, stuck: set<nat>)
    requires Accounted(sent, queue, applied, stuck) && queue == multiset{} && stuck == {}
    ensures DistinctIds(sent) && forall e :: e in applied <==> e in sent
  {
    hide Counted;
  }

  // What goes wrong while one event is handled. Publishing, SETNX, the row upsert, DEL and
  // the hash pipeline may each fail, and the process may stop.
  datatype Faults = Faults(publish: bool, mark: bool, upsert: bool, unmark: bool, pipeline: bool, stop: Stop)

  datatype Stop = Never | BeforeRow | BeforeHash | BeforeAck

  const NO_FAULTS := Faults(false, false, false, false, false, Never)

  // How applying an event ends: the source returns nil for the first three and an error for
  // the fourth; in the last two the process stopped before or after the row was written.
  datatype ApplyResult = Ignored | Known | Applied | Failed | StoppedBefore | StoppedAfter

  predicate Writes(r: ApplyResult) { r.Applied? || r.StoppedAfter? }

  // What becomes of an event that counts and is not recognised.
  function Attempt(f: Faults): ApplyResult {
    if f.stop.BeforeRow? then StoppedBefore
    else if f.upsert then Failed
    else if f.stop.BeforeHash? then StoppedAfter
    else Applied
  }

  class Aggregator {
    const dedupWorks: bool                 // SETNX and DEL on deduplication keys never fail
    var dedup: set<nat>                    // activity:event:dedup:<id>
    var rows: map<Key, Counts>             // user_activity_daily
    var hashes: map<Key, Counts>           // activity:daily:<user>:<date>
    var queue: multiset<Event>             // queued or delivered and not acknowledged
    var nextToken: nat
    ghost var sent: seq<Event>             // published, or applied directly
    ghost var applied: seq<Event>
    ghost var stuck: set<nat>
    ghost var held: map<Key, seq<Event>>   // the events in each hash

    ghost predicate Valid() reads this {
      && Tallies(rows, applied) && HashBooks(hashes, held, applied)
      && Accounted(sent, queue, applied, stuck) && TokensBelow(sent, nextToken)
      && Books(applied, dedup, stuck, dedupWorks)
    }

    constructor (dedupWorks: bool)
      ensures Valid() && this.dedupWorks == dedupWorks && nextToken == 1
      ensures sent == [] && queue == multiset{} && applied == [] && stuck == {} && dedup == {} && held == map[]
    {
      this.dedupWorks := dedupWorks;
      dedup, rows, hashes, queue, nextToken := {}, map[], map[], multiset{}, 1;
      sent, applied, stuck, held := [], [], {}, map[];
    }

    // The mark that SETNX leaves tells whether the event was met before; without one the
    // event is taken for new.
    predicate Recognised(e: Event, f: Faults) reads this {
      e.id != 0 && e.id in dedup && (dedupWorks || !f.mark)
    }

    predicate GetsMarked(e: Event, f: Faults) reads this {
      e.id != 0 && e.id !in dedup && (dedupWorks || !f.mark)
    }

    method SetNX(id: nat, fails: bool) returns (failed: bool, isNew: bool)
      modifies `dedup
      ensures failed == (fails && !dedupWorks)
      ensures if failed then !isNew && dedup == old(dedup)
        else isNew == (id !in old(dedup)) && dedup == old(dedup) + {id}
    {
      failed := fails && !dedupWorks;
      if failed { return true, false; }
      isNew := id !in dedup;
      dedup := dedup + {id};
    }

    // Row and hash; the hash's pipeline is best effort.
    method Tally(k: Key, e: Event, f: Faults) returns (ok: bool)
      requires On(e, k)
      modifies `rows, `hashes, `held, `applied
      ensures ok == !f.upsert
      ensures applied == if ok then old(applied) + [e] else old(applied)
      ensures held ==
        if ok && !f.pipeline && !f.stop.BeforeHash? then old(held)[k := InHash(old(held), k) + [e]]
        else old(held)
      ensures !ok ==> rows == old(rows) && hashes == old(hashes)
      ensures old(Tallies(rows, applied)) ==> Tallies(rows, applied)
      ensures old(HashBooks(hashes, held, applied)) ==> HashBooks(hashes, held, applied)
    {
      hide Tallies, HashBooks, Plus, BuildIncrements;
      var inc := BuildIncrements(e.action, e.bytes);
      if f.upsert { return false; }
      if Tallies(rows, applied) { AddedTallies(rows, applied, e, k); }
      if HashBooks(hashes, held, applied) { HashBooksGrow(hashes, held, applied, e, k); }
      rows := Added(rows, k, inc);
      if !f.pipeline && !f.stop.BeforeHash? {
        hashes, held := Added(hashes, k, inc), held[k := InHash(held, k) + [e]];
      }
      applied := applied + [e];
      ok := true;
    }

    // Adds the event, unless its id is remembered.
    method ApplyEvent(e: Event, today: int, f: Faults) returns (r: ApplyResult)
      modifies `dedup, `rows, `hashes, `applied, `stuck, `held
      ensures r == if !Counted(e) then Ignored else if old(Recognised(e, f)) then Known else Attempt(f)
      ensures r == Ignored <==> e.user == 0 || e.action.Other?
      ensures applied ==
        if r == Applied || r == StoppedAfter then
          old(applied) + [e.(day := Some(if e.day.Some? then e.day.value else today))]
        else old(applied)
      ensures held == if r.Applied? && !f.pipeline then Held(old(held), Resolved(e, today)) else old(held)
      ensures stuck ==
        if Counted(e) && old(GetsMarked(e, f)) && LeavesMark(r, f, dedupWorks) then old(stuck) + {e.id}
        else old(stuck)
      ensures dedup ==
        if Counted(e) && old(GetsMarked(e, f)) && (Writes(r) || LeavesMark(r, f, dedupWorks)) then old(dedup) + {e.id}
        else old(dedup)
      ensures !Writes(r) ==> rows == old(rows) && hashes == old(hashes)
      ensures old(Tallies(rows, applied)) ==> Tallies(rows, applied)
      ensures old(HashBooks(hashes, held, applied)) ==> HashBooks(hashes, held, applied)
      ensures e.id != 0 && old(Books(applied, dedup, stuck, dedupWorks)) ==> Books(applied, dedup, stuck, dedupWorks)
    {
      hide Tallies, HashBooks, Books, BuildIncrements;
      if !Counted(e) { return Ignored; }
      var resolved := Resolved(e, today);
      var k := (resolved.user, resolved.day.value);
      var marked := false;
      if e.id != 0 {
        ghost var before := dedup;
        var redisFails;
        redisFails, marked := SetNX(e.id, f.mark);
        if !redisFails && !marked {
          assert dedup == before;
          return Known;
        }
        if marked {
          if Books(applied, before, stuck, dedupWorks) { BooksMarked(applied, before, stuck, dedupWorks, resolved); }
        } else if Books(applied, dedup, stuck, dedupWorks) {
          BooksUnmarked(applied, dedup, stuck, resolved);
        }
      }
      if f.stop.BeforeRow? {
        if marked { stuck := stuck + {e.id}; }
        return StoppedBefore;
      }
      var ok := Tally(k, resolved, f);
      if ok { return if f.stop.BeforeHash? then StoppedAfter else Applied; }
      if marked {
        if f.unmark && !dedupWorks { stuck := stuck + {e.id}; } else { dedup := dedup - {e.id}; }
      }
      r := Failed;
    }

    // Publishing an event; where that fails, or the event is not one that counts, applying
    // it right away.
    method Emit(user: nat, action: Action, bytes: int, day: int, f: Faults) returns (failed: bool)
      requires Valid()
      modifies this
      ensures Valid() && nextToken == old(nextToken) + 1
      ensures user == 0 || action.Other? ==> sent == old(sent)
      ensures var e, r := Event(old(nextToken), user, action, bytes, Some(day)), Attempt(f);
        if !Counted(e) || !f.publish then
          && !failed && applied == old(applied) && held == old(held) && stuck == old(stuck) && dedup == old(dedup)
          && sent == (if Counted(e) then old(sent) + [e] else old(sent))
          && queue == (if Counted(e) then old(queue) + multiset{e} else old(queue))
        else
          && failed == r.Failed? && queue == old(queue)
          && applied == (if Writes(r) then old(applied) + [e] else old(applied))
          && held == (if r.Applied? && !f.pipeline then Held(old(held), e) else old(held))
          && stuck ==
            (if LeavesMark(r, f, dedupWorks) && (dedupWorks || !f.mark) then old(stuck) + {e.id} else old(stuck))
          && sent == (if Writes(r) || e.id in stuck then old(sent) + [e] else old(sent))
    {
      hide Tallies, HashBooks, Books, Accounted, HasId, TokensBelow;
      var e := Event(nextToken, user, action, bytes, Some(day));
      TokensGrow(sent, e);
      DayStays(e, day);
      NewIsUnknown(sent, queue, applied, dedup, stuck, dedupWorks, e);
      if Counted(e) { AccountedMore(sent, queue, applied, stuck, e); }
      nextToken := nextToken + 1;
      if !f.publish && Counted(e) {
        queue, sent := queue + multiset{e}, sent + [e];
        return false;
      }
      ghost var was := stuck;
      var r := ApplyEvent(e, day, f);
      if Writes(r) || stuck != was { sent := sent + [e]; }
      failed := r.Failed?;
    }

    // One delivery: acknowledged once applied or recognised, given back when applying failed
    // or the worker stopped.
    method HandleActivityMessage(e: Event, today: int, f: Faults) returns (acked: bool)
      requires Valid() && e in queue
      modifies this
      ensures Valid() && sent == old(sent) && nextToken == old(nextToken)
      ensures acked == (!f.stop.BeforeAck? && (old(Recognised(e, f)) || Attempt(f).Applied?))
      ensures queue == if acked then old(queue) - multiset{e} else old(queue)
      ensures applied == if !old(Recognised(e, f)) && Writes(Attempt(f)) then old(applied) + [e] else old(applied)
      ensures held ==
        if !old(Recognised(e, f)) && Attempt(f).Applied? && !f.pipeline then Held(old(held), e)
        else old(held)
      ensures acked ==> e in applied || e.id in stuck
      ensures stuck ==
        if old(GetsMarked(e, f)) && LeavesMark(Attempt(f), f, dedupWorks) then old(stuck) + {e.id}
        else old(stuck)
      ensures dedup ==
        if old(GetsMarked(e, f)) && (Writes(Attempt(f)) || LeavesMark(Attempt(f), f, dedupWorks))
        then old(dedup) + {e.id}
        else old(dedup)
    {
      hide Tallies, HashBooks, Books, TokensBelow, Resolved, Held, Counted, Accounted, HasId;
      AccountedMessage(sent, queue, applied, stuck, e);
      KnownIsDone(sent, queue, applied, dedup, stuck, dedupWorks, e);
      DayStays(e, today);
      var r := ApplyEvent(e, today, f);
      acked := r in {Ignored, Known, Applied} && !f.stop.BeforeAck?;
      if acked { queue := queue - multiset{e}; }
    }

    // The broker may deliver a message twice.
    method Duplicate(e: Event)
      requires Valid() && e in queue
      modifies `queue
      ensures Valid() && queue == old(queue) + multiset{e}
    {
      queue := queue + multiset{e};
    }

    method ExpireHash(k: Key)
      requires Valid()
      modifies `hashes, `held
      ensures Valid() && hashes == old(hashes) - {k} && held == old(held) - {k}
    {
      hide Tallies, Books, Accounted, HashRight;
      hashes := hashes - {k};
      held := held - {k};
    }

    // Any run of these steps, with any faults. When it has drained the queue, the rows are
    // the sums of the distinct events sent, if and only if no event was marked and then not
    // written; and then a hash is right if and only if no event of its day is missing from it.
    method Run(rounds: nat)
      requires Valid()
      modifies this
      ensures Valid()
      ensures dedupWorks && queue == multiset{} ==> (Tallies(rows, sent) <==> stuck == {})
      ensures dedupWorks && queue == multiset{} && stuck == {} ==>
        forall k :: k in hashes ==> (Reports(hashes[k], sent, k) <==> !Missing(held[k], sent, k))
    {
      hide Tallies, HashBooks, Books, Accounted, HasId;
      for i := 0 to rounds
        invariant Valid()
      {
        var choice: nat := *;
        var f: Faults := *;
        if choice == 0 {
          var user: nat, action: Action, bytes: int, day: int := *, *, *, *;
          var failed := Emit(user, action, bytes, day, f);
        } else if choice == 1 {
          var k: Key := *;
          ExpireHash(k);
        } else if e :| e in queue {
          if choice == 2 {
            Duplicate(e);
          } else {
            var today: int := *;
            var acked := HandleActivityMessage(e, today, f);
          }
        }
      }
      if dedupWorks && queue == multiset{} { Drained(); }
    }

    lemma Drained()
      requires Valid() && dedupWorks && queue == multiset{}
      ensures Tallies(rows, sent) <==> stuck == {}
      ensures stuck == {} ==> forall k :: k in hashes ==> (Reports(hashes[k], sent, k) <==> !Missing(held[k], sent, k))
    {
      hide Sum, Missing, Tallies, HashRight, Reports;
      DrainedIff(sent, queue, applied, dedup, stuck, rows);
      if stuck == {} {
        AppliedAreValid(sent, queue, applied, stuck);
        SameWhenDrained(sent, queue, applied, stuck);
        OnceApplied(applied, dedup, stuck);
        forall k | k in hashes ensures Reports(hashes[k], sent, k) <==> !Missing(held[k], sent, k) {
          SameEventsSameSum(applied, sent, k);
          ReportsIff(hashes[k], applied, k);
          ReportsIff(hashes[k], sent, k);
          HashExactIff(hashes[k], held[k], applied, k);
          MissingAlike(held[k], applied, sent, k);
        }
      }
    }

    // The last `days` days, oldest first. The hash of a day, where there is one that can be
    // read, wins over the row; the day is right exactly when that hash misses no event.
    // `lost` names the days whose hash cannot be read.
    method GetSummary(user: nat, days: int, today: int, dbFails: bool, lost: set<int>)
      returns (r: Option<seq<(int, Counts)>>)
      requires Valid()
      ensures r.Some? <==> !dbFails
      ensures r.Some? ==> |r.value| == if days <= 0 then 7 else if days > 90 then 90 else days
      ensures r.Some? ==> forall i :: 0 <= i < |r.value| ==>
        && r.value[i].0 == today - (|r.value| - 1) + i
        && var k := (user, r.value[i].0);
           && r.value[i].1 == (if k.1 !in lost && k in hashes then hashes[k] else At(rows, k))
           && (Reports(r.value[i].1, applied, k) <==> k.1 in lost || k !in hashes || !Missing(held[k], applied, k))
    {
      hide Tallies, HashRight, Accounted, Sum, Missing, Reports;
      if dbFails { return None; }
      AppliedAreValid(sent, queue, applied, stuck);
      var items: seq<(int, Counts)> := [];
      for i := 0 to Days(days)
        invariant |items| == i
        invariant forall j :: 0 <= j < i ==>
          && items[j].0 == today - (Days(days) - 1) + j
          && var k := (user, items[j].0);
             && items[j].1 == (if k.1 !in lost && k in hashes then hashes[k] else At(rows, k))
             && (Reports(items[j].1, applied, k) <==> k.1 in lost || k !in hashes || !Missing(held[k], applied, k))
      {
        var date := today - (Days(days) - 1) + i;
        var k := (user, date);
        var item := At(rows, k);
        RowReports(rows, applied, k);
        if date !in lost && k in hashes {
          HashExactIff(hashes[k], held[k], applied, k);
          item := hashes[k];
        }
        items := items + [(date, item)];
      }
      r := Some(items);
    }
  }

  lemma RowReports(rows: map<Key, Counts>, applied: seq<Event>, k: Key)
    requires Tallies(rows, applied)
    ensures Reports(At(rows, k), applied, k)
  {}

  lemma RowIsSum(rows: map<Key, Counts>, applied: seq<Event>, k: Key)
    requires Tallies(rows, applied)
    ensures At(rows, k) == Sum(applied, k)
  {
    hide Tallies, Sum;
    TalliesIff(rows, applied);
  }

  lemma MissingAlike(held: seq<Event>, applied: seq<Event>, sent: seq<Event>, k: Key)
    requires DistinctIds(applied) && DistinctIds(sent) && forall e :: e in applied <==> e in sent
    ensures Missing(held, applied, k) <==> Missing(held, sent, k)
  {
    forall e ensures multiset(applied)[e] == multiset(sent)[e] { OnceEach(applied, e); OnceEach(sent, e); }
  }

  // A mark that outlives the attempt without the event having been written.
  predicate LeavesMark(r: ApplyResult, f: Faults, dedupWorks: bool) {
    r.StoppedBefore? || (r.Failed? && f.unmark && !dedupWorks)
  }

  function Held(held: map<Key, seq<Event>>, e: Event): map<Key, seq<Event>>
    requires e.day.Some?
  {
    var k := (e.user, e.day.value);
    held[k := InHash(held, k) + [e]]
  }

  lemma NewIsUnknown(sent: seq<Event>, queue: multiset<Event>, applied: seq<Event>, dedup: set<nat>, stuck: set<nat>,
    works: bool, e: Event)
    requires Accounted(sent, queue, applied, stuck) && Books(applied, dedup, stuck, works) && !HasId(sent, e.id)
    ensures e.id !in dedup && e.id !in stuck
  {
    forall i | 0 <= i < |applied| ensures applied[i].id != e.id {
      assert applied[i] in applied;
    }
  }

  lemma DayStays(e: Event, today: int)
    ensures e.day.Some? ==> Resolved(e, today) == e
  {}

  function Days(days: int): (r: nat)
    ensures 1 <= r <= 90
    ensures 1 <= days <= 90 ==> r == days
  {
    if days <= 0 then 7 else if days > 90 then 90 else days
  }

  lemma AccountedMore(sent: seq<Event>, queue: multiset<Event>, applied: seq<Event>, stuck: set<nat>, e: Event)
    requires Accounted(sent, queue, applied, stuck) && Counted(e) && e.day.Some? && e.id != 0 && !HasId(sent, e.id)
    ensures Accounted(sent + [e], queue + multiset{e}, applied, stuck)
    ensures Accounted(sent + [e], queue, applied + [e], stuck)
    ensures Accounted(sent + [e], queue, applied, stuck + {e.id})
    ensures e.id !in stuck
  {
    hide Counted;
    var more := sent + [e];
    assert more[|sent|] == e;
    forall id | HasId(sent, id) ensures HasId(more, id) {
      var i :| 0 <= i < |sent| && sent[i].id == id;
      assert more[i].id == id;
    }
  }

  ghost predicate TokensBelow(sent: seq<Event>, next: nat) {
    next > 0 && forall i :: 0 <= i < |sent| ==> sent[i].id < next
  }

  lemma TokensGrow(sent: seq<Event>, e: Event)
    requires TokensBelow(sent, e.id)
    ensures e.id != 0 && !HasId(sent, e.id) && TokensBelow(sent, e.id + 1) && TokensBelow(sent + [e], e.id + 1)
  {}

  // What a delivery needs to know about its message, and what applying it may leave.
  lemma AccountedMessage(sent: seq<Event>, queue: multiset<Event>, applied: seq<Event>, stuck: set<nat>, e: Event)
    requires Accounted(sent, queue, applied, stuck) && e in queue
    ensures e in sent && Counted(e) && e.day.Some? && e.id != 0
    ensures Accounted(sent, queue - multiset{e}, applied + [e], stuck) && Accounted(sent, queue, applied + [e], stuck)
    ensures Accounted(sent, queue, applied, stuck + {e.id})
    ensures e in applied || e.id in stuck ==> Accounted(sent, queue - multiset{e}, applied, stuck)
  {
    hide Counted;
    var i :| 0 <= i < |sent| && sent[i] == e;
    assert HasId(sent, e.id);
  }

  // An id that is remembered belongs to an event that was applied or is stuck.
  lemma KnownIsDone(sent: seq<Event>, queue: multiset<Event>, applied: seq<Event>, dedup: set<nat>, stuck: set<nat>,
    works: bool, e: Event)
    requires Accounted(sent, queue, applied, stuck) && Books(applied, dedup, stuck, works) && e in queue
    ensures e.id in dedup ==> e in applied || e.id in stuck
  {
    if e.id in dedup && e.id !in stuck {
      var i :| 0 <= i < |applied| && applied[i].id == e.id;
      assert applied[i] in applied;
      SameIdSameEvent(sent, applied[i], e);
    }
  }

  function Resolved(e: Event, today: int): Event {
    if e.day.Some? then e else e.(day := Some(today))
  }

  lemma OneUpload(e: Event, k: Key)
    requires On(e, k) && e.action == Upload && e.bytes >= 0
    ensures Sum([e], k) == ZERO.(uploads := 1, uploadBytes := e.bytes)
  {
    hide Sum, Plus;
    EmptySum(k);
    SumMore([], e, k);
    assert [] + [e] == [e];
    PlusLaws(Share(e, k), ZERO, ZERO);
    UploadShare(e, k);
    hide Share;
  }

  lemma UploadShare(e: Event, k: Key)
    requires On(e, k) && e.action == Upload && e.bytes >= 0
    ensures Share(e, k) == ZERO.(uploads := 1, uploadBytes := e.bytes)
  {}

  lemma TwoUploads(a: Event, b: Event, k: Key)
    requires On(a, k) && a.action == Upload && a.bytes >= 0 && On(b, k) && b.action == Upload && b.bytes >= 0
    ensures Sum([a, b], k) == ZERO.(uploads := 2, uploadBytes := a.bytes + b.bytes)
  {
    hide Sum;
    OneUpload(a, k);
    SumMore([a], b, k);
    assert [a] + [b] == [a, b];
    UploadShare(b, k);
  }

  // Two uploads on one day. The pipeline fails for the first and works for the second: the
  // hash that it starts hides the row and the first upload with it.
  method HashHidesRow() returns (a: Aggregator, shown: Counts)
    ensures a.Valid() && a.queue == multiset{} && a.stuck == {}
    ensures At(a.rows, (1, 0)) == ZERO.(uploads := 2, uploadBytes := 30) == Sum(a.sent, (1, 0))
    ensures shown == ZERO.(uploads := 1, uploadBytes := 20)
  {
    hide Tallies, HashBooks, Accounted, Books, TokensBelow, Sum, Missing, Reports, Plus;
    var first, second := Event(1, 1, Upload, 10, Some(0)), Event(2, 1, Upload, 20, Some(0));
    a := TwoApplied(first, second);
    TwoUploads(first, second, (1, 0));
    OneUpload(second, (1, 0));
    RowIsSum(a.rows, a.applied, (1, 0));
    HashIsSum(a.hashes, a.held, a.applied, (1, 0));
    var summary := a.GetSummary(1, 1, 0, false, {});
    shown := summary.value[0].1;
  }

  method TwoApplied(first: Event, second: Event) returns (a: Aggregator)
    requires first == Event(1, 1, Upload, 10, Some(0)) && second == Event(2, 1, Upload, 20, Some(0))
    ensures fresh(a) && a.Valid() && a.queue == multiset{} && a.stuck == {}
    ensures a.sent == [first, second] == a.applied && a.held == map[(1, 0) := [second]]
  {
    hide Tallies, HashBooks, Accounted, Books, TokensBelow, Sum, Missing, Reports;
    a := new Aggregator(true);
    SendsTwo(a, first, second);
    var acked := a.HandleActivityMessage(first, 0, NO_FAULTS.(pipeline := true));
    acked := a.HandleActivityMessage(second, 0, NO_FAULTS);
    assert a.sent == [first, second] == a.applied;
    assert InHash(map[], (1, 0)) + [second] == [second];
  }

  method SendsTwo(a: Aggregator, first: Event, second: Event)
    requires a.Valid() && a.nextToken == 1 && a.dedup == {} && a.queue == multiset{}
    requires first == Event(1, 1, Upload, 10, Some(0)) && second == Event(2, 1, Upload, 20, Some(0))
    modifies a
    ensures a.Valid() && a.sent == old(a.sent) + [first] + [second] && a.queue == multiset{first, second}
    ensures a.applied == old(a.applied) && a.held == old(a.held) && a.stuck == old(a.stuck) && a.dedup == {}
  {
    hide Tallies, HashBooks, Accounted, Books, TokensBelow, Sum;
    var failed := a.Emit(1, Upload, 10, 0, NO_FAULTS);
    failed := a.Emit(1, Upload, 20, 0, NO_FAULTS);
  }

  lemma HashIsSum(hashes: map<Key, Counts>, held: map<Key, seq<Event>>, applied: seq<Event>, k: Key)
    requires HashBooks(hashes, held, applied)
    ensures hashes.Keys == held.Keys && (k in hashes ==> hashes[k] == Sum(held[k], k))
  {
    hide Sum, Reports;
    if k in hashes { ReportsIff(hashes[k], held[k], k); }
  }

  // A worker stops between mark and row. The message comes back, is recognised and
  // acknowledged, and the event is lost.
  method MarkedAndLost() returns (a: Aggregator)
    ensures a.Valid() && a.dedupWorks && a.queue == multiset{} && a.stuck == {1}
    ensures At(a.rows, (1, 0)) == ZERO && Sum(a.sent, (1, 0)) == ZERO.(uploads := 1, uploadBytes := 10)
  {
    hide Tallies, HashBooks, Accounted, Books, TokensBelow, Sum;
    a := new Aggregator(true);
    var e := Event(1, 1, Upload, 10, Some(0));
    var failed := a.Emit(1, Upload, 10, 0, NO_FAULTS);
    var acked := a.HandleActivityMessage(e, 0, NO_FAULTS.(stop := BeforeRow));
    acked := a.HandleActivityMessage(e, 0, NO_FAULTS);
    assert a.sent == [e];
    OneUpload(e, (1, 0));
    EmptySum((1, 0));
    RowIsSum(a.rows, a.applied, (1, 0));
  }
}
