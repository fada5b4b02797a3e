// How the web client cuts a file, and why putting sorted chunks together gives it back.

module Slices {
  import opened Wrappers

  function CeilDiv(size: nat, chunkSize: nat): nat
    requires chunkSize > 0
  {
    if size % chunkSize == 0 then size / chunkSize else size / chunkSize + 1
  }

  // The size chosen in the form, in megabytes; 0 reads as "not given".
  function ChunkSize(megabytes: int): (r: nat)
    ensures r >= 0x10_0000
    ensures megabytes == 0 ==> r == 5 * 1048576
    ensures megabytes > 0 ==> r == megabytes * 1048576
    ensures megabytes < 0 ==> r == 1048576
  {
    Larger(1, if megabytes == 0 then 5 else megabytes) * 0x10_0000
  }

  function TotalChunks(size: nat, chunkSize: nat): (r: nat)
    requires chunkSize > 0
    ensures r >= 1
  {
    Larger(1, CeilDiv(size, chunkSize))
  }

  // file.slice(start, end), which clamps both ends to the file.
  function FileSlice(file: Bytes, start: nat, end: nat): Bytes
    requires start <= end
  {
    file[Smaller(start, |file|)..Smaller(end, |file|)]
  }

  function Chunk(file: Bytes, chunkSize: nat, index: nat): Bytes {
    var start := index * chunkSize;
    FileSlice(file, Smaller(start, |file|), Larger(Smaller(start, |file|), Smaller(|file|, start + chunkSize)))
  }

  function Concat(parts: seq<Bytes>): Bytes {
    if parts == [] then [] else Concat(parts[..|parts| - 1]) + parts[|parts| - 1]
  }

  function FirstChunks(file: Bytes, chunkSize: nat, n: nat): (r: seq<Bytes>)
    ensures |r| == n && forall i :: 0 <= i < n ==> r[i] == Chunk(file, chunkSize, i)
  {
    seq(n, i requires 0 <= i < n => Chunk(file, chunkSize, i))
  }

  lemma {:induction false} ChunksArePrefix(file: Bytes, chunkSize: nat, n: nat)
    ensures Concat(FirstChunks(file, chunkSize, n)) == file[..Smaller(n * chunkSize, |file|)]
  {
    hide Chunk;
    if n > 0 {
      ChunksArePrefix(file, chunkSize, n - 1);
      assert FirstChunks(file, chunkSize, n)[..n - 1] == FirstChunks(file, chunkSize, n - 1);
      TimesUp(n - 1, chunkSize);
      OneMoreChunk(file, chunkSize, n - 1, (n - 1) * chunkSize);
    }
  }

  lemma TimesUp(n: nat, k: nat)
    ensures (n + 1) * k == n * k + k
  {}

  lemma OneMoreChunk(file: Bytes, chunkSize: nat, i: nat, start: nat)
    requires start == i * chunkSize
    ensures file[..Smaller(start, |file|)] + Chunk(file, chunkSize, i) == file[..Smaller(start + chunkSize, |file|)]
  {}

  lemma ChunksCover(size: nat, chunkSize: nat)
    requires chunkSize > 0
    ensures TotalChunks(size, chunkSize) * chunkSize >= size
  {
    var q := size / chunkSize;
    assert size == q * chunkSize + size % chunkSize;
    assert (q + 1) * chunkSize == q * chunkSize + chunkSize;
    if q == 0 { assert 1 * chunkSize == chunkSize; }
  }

  // No chunk but the only one of an empty file is empty, and all but the last are full.
  lemma ChunkLengths(file: Bytes, chunkSize: nat, index: nat)
    requires chunkSize > 0 && index < TotalChunks(|file|, chunkSize)
    ensures |Chunk(file, chunkSize, index)| <= chunkSize
    ensures index + 1 < TotalChunks(|file|, chunkSize) ==> |Chunk(file, chunkSize, index)| == chunkSize
    ensures file != [] ==> Chunk(file, chunkSize, index) != []
  {
    var q := |file| / chunkSize;
    assert |file| == q * chunkSize + |file| % chunkSize;
    var start := index * chunkSize;
    assert (index + 1) * chunkSize == start + chunkSize;
    if index + 1 <= q {
      Monotone(index + 1, q, chunkSize);
    } else {
      Monotone(index, q, chunkSize);
    }
  }

  lemma Monotone(a: nat, b: nat, c: nat)
    requires a <= b
    ensures a * c <= b * c
  {}

  // Cutting and putting together is the identity, for every file and chunk size.
  lemma CutAndJoin(file: Bytes, chunkSize: nat)
    requires chunkSize > 0
    ensures Concat(FirstChunks(file, chunkSize, TotalChunks(|file|, chunkSize))) == file
  {
    ChunksArePrefix(file, chunkSize, TotalChunks(|file|, chunkSize));
    ChunksCover(|file|, chunkSize);
  }

  // ---- Chunks cut with more than one size ----------------------------------

  // The i-th chunk cut with the i-th size.
  function MixedChunks(file: Bytes, sizes: seq<nat>): (r: seq<Bytes>)
    ensures |r| == |sizes| && forall i :: 0 <= i < |r| ==> r[i] == Chunk(file, sizes[i], i)
  {
    seq(|sizes|, i requires 0 <= i < |sizes| => Chunk(file, sizes[i], i))
  }

  // All sizes announce the number of chunks there are.
  predicate Announce(size: nat, sizes: seq<nat>) {
    sizes != [] && forall i :: 0 <= i < |sizes| ==> sizes[i] > 0 && TotalChunks(size, sizes[i]) == |sizes|
  }

  predicate OneSize(sizes: seq<nat>) {
    forall i, j :: 0 <= i < |sizes| && 0 <= j < |sizes| ==> sizes[i] == sizes[j]
  }

  function Sum(sizes: seq<nat>): nat {
    if sizes == [] then 0 else Sum(sizes[..|sizes| - 1]) + sizes[|sizes| - 1]
  }

  lemma LastChunkLength(file: Bytes, chunkSize: nat, n: nat)
    requires chunkSize > 0 && n == TotalChunks(|file|, chunkSize)
    ensures (n - 1) * chunkSize <= |file| <= n * chunkSize
    ensures |Chunk(file, chunkSize, n - 1)| == |file| - (n - 1) * chunkSize
  {
    ChunksCover(|file|, chunkSize);
    var q := |file| / chunkSize;
    assert |file| == q * chunkSize + |file| % chunkSize;
    Monotone(n - 1, q, chunkSize);
    TimesUp(n - 1, chunkSize);
  }

  // All chunks but the last are full, whatever their sizes.
  lemma {:induction false} MixedPrefixLength(file: Bytes, sizes: seq<nat>, k: nat)
    requires Announce(|file|, sizes) && k < |sizes|
    ensures |Concat(MixedChunks(file, sizes)[..k])| == Sum(sizes[..k])
  {
    if k > 0 {
      MixedPrefixLength(file, sizes, k - 1);
      var parts := MixedChunks(file, sizes);
      assert parts[..k][..k - 1] == parts[..k - 1] && sizes[..k][..k - 1] == sizes[..k - 1];
      ChunkLengths(file, sizes[k - 1], k - 1);
    }
  }

  // The composed object has the file's length exactly when the sizes of all chunks but the
  // last add up to as many of the last one's.
  lemma MixedLengthIff(file: Bytes, sizes: seq<nat>)
    requires Announce(|file|, sizes)
    ensures var n := |sizes|;
      |Concat(MixedChunks(file, sizes))| == |file| <==> Sum(sizes[..n - 1]) == (n - 1) * sizes[n - 1]
  {
    var n, parts := |sizes|, MixedChunks(file, sizes);
    MixedPrefixLength(file, sizes, n - 1);
    LastChunkLength(file, sizes[n - 1], n);
    hide Chunk, TotalChunks;
  }

  lemma {:induction false} SumBounds(sizes: seq<nat>, s: nat)
    ensures (forall i :: 0 <= i < |sizes| ==> sizes[i] >= s) ==> Sum(sizes) >= |sizes| * s
    ensures (forall i :: 0 <= i < |sizes| ==> sizes[i] <= s) ==> Sum(sizes) <= |sizes| * s
    ensures (forall i :: 0 <= i < |sizes| ==> sizes[i] >= s) && Sum(sizes) == |sizes| * s ==>
      forall i :: 0 <= i < |sizes| ==> sizes[i] == s
    ensures (forall i :: 0 <= i < |sizes| ==> sizes[i] <= s) && Sum(sizes) == |sizes| * s ==>
      forall i :: 0 <= i < |sizes| ==> sizes[i] == s
  {
    if sizes != [] {
      SumBounds(sizes[..|sizes| - 1], s);
      TimesUp(|sizes| - 1, s);
    }
  }

  // When every chunk is cut with one of two sizes that announce the same number, what is
  // composed is the file if and only if there is one chunk or all were cut with one size.
  lemma MixedSizesIff(file: Bytes, sizes: seq<nat>, a: nat, b: nat)
    requires Announce(|file|, sizes) && forall i :: 0 <= i < |sizes| ==> sizes[i] == a || sizes[i] == b
    ensures Concat(MixedChunks(file, sizes)) == file <==> |sizes| == 1 || OneSize(sizes)
  {
    hide Chunk, TotalChunks, Sum, OneSize;
    if |sizes| == 1 || OneSize(sizes) {
      OneSizeIsWhole(file, sizes);
    } else {
      MixedLengthIff(file, sizes);
      if Sum(sizes[..|sizes| - 1]) == (|sizes| - 1) * sizes[|sizes| - 1] { TwoSizesBalance(sizes, a, b); }
    }
  }

  lemma OneSizeIsWhole(file: Bytes, sizes: seq<nat>)
    requires Announce(|file|, sizes) && (|sizes| == 1 || OneSize(sizes))
    ensures Concat(MixedChunks(file, sizes)) == file
  {
    var s := sizes[0];
    CutAndJoin(file, s);
    assert MixedChunks(file, sizes) == FirstChunks(file, s, |sizes|) by { hide Chunk, TotalChunks; }
  }

  lemma TwoSizesBalance(sizes: seq<nat>, a: nat, b: nat)
    requires sizes != [] && forall i :: 0 <= i < |sizes| ==> sizes[i] == a || sizes[i] == b
    requires Sum(sizes[..|sizes| - 1]) == (|sizes| - 1) * sizes[|sizes| - 1]
    ensures OneSize(sizes)
  {
    var most, s := sizes[..|sizes| - 1], sizes[|sizes| - 1];
    SumBounds(most, s);
    hide Sum;
    assert forall i :: 0 <= i < |most| ==> most[i] == sizes[i];
    assert forall i :: 0 <= i < |most| ==> most[i] == s;
    forall i | 0 <= i < |sizes| ensures sizes[i] == s {
      if i < |most| { assert most[i] == sizes[i]; }
    }
  }

  // ---- Sorted indices -----------------------------------------------------

  predicate IsLeast(xs: set<nat>, m: nat) {
    m in xs && forall y :: y in xs ==> m <= y
  }

  lemma {:induction false} HasLeast(xs: set<nat>, x: nat) returns (m: nat)
    requires x in xs
    ensures IsLeast(xs, m)
    decreases xs
  {
    if y :| y in xs && y < x {
      m := HasLeast(xs - {x}, y);
      assert forall z :: z in xs ==> z == x || z in xs - {x};
    } else {
      m := x;
    }
  }

  lemma LeastExists(xs: set<nat>)
    requires xs != {}
    ensures exists m :: IsLeast(xs, m)
  {
    var x :| x in xs;
    var m := HasLeast(xs, x);
  }

  function Least(xs: set<nat>): (m: nat)
    requires xs != {}
    ensures IsLeast(xs, m)
  {
    LeastExists(xs);
    var m :| IsLeast(xs, m);
    m
  }

  // ORDER BY chunk_index.
  function Sorted(xs: set<nat>): (r: seq<nat>)
    ensures |r| == |xs|
    ensures forall x :: x in r <==> x in xs
    ensures Ascending(r)
    decreases xs
  {
    if xs == {} then [] else var m := Least(xs); [m] + Sorted(xs - {m})
  }

  predicate Ascending(r: seq<nat>) {
    forall i, j :: 0 <= i < j < |r| ==> r[i] < r[j]
  }

  // Pigeonhole: n ascending indices between 0 and n are exactly 0 .. n-1.
  lemma AscendingIsAll(r: seq<nat>)
    requires Ascending(r) && forall k :: 0 <= k < |r| ==> r[k] < |r|
    ensures forall k :: 0 <= k < |r| ==> r[k] == k
  {
    forall k | 0 <= k < |r| ensures r[k] == k {
      AtLeastItsPlace(r, k);
      RoomAbove(r, k);
    }
  }

  lemma {:induction false} AtLeastItsPlace(r: seq<nat>, k: nat)
    requires Ascending(r) && k < |r|
    ensures r[k] >= k
  {
    if k > 0 { AtLeastItsPlace(r, k - 1); }
  }

  lemma {:induction false} RoomAbove(r: seq<nat>, k: nat)
    requires Ascending(r) && k < |r| && r[|r| - 1] < |r|
    ensures r[k] <= k
    decreases |r| - k
  {
    if k < |r| - 1 { RoomAbove(r, k + 1); }
  }
}
