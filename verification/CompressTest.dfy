/**
  The verify test as a whole: the buffers of `Segmentation` through the loops of
  `PipelineLoops`, whose output `Pipeline.OutputInOrder` describes.
 */
module CompressTest {
  import opened Basics
  import opened Pipeline
  import opened Segmentation

  /** What a device that computes `f` makes of buffer `i`. */
  function Results(b: seq<seq<seq<byte>>>, f: seq<byte> -> seq<byte>): nat -> seq<byte> {
    (i: nat) => if i < |b| then f(Flat(b[i])) else []
  }

  lemma RangeLast(n: nat)
    requires n > 0
    ensures Range(0, n)[..n - 1] == Range(0, n - 1) && Range(0, n)[n - 1] == n - 1
  {}

  lemma {:induction false} FlatAllConcat(a: seq<seq<seq<byte>>>, b: seq<seq<seq<byte>>>)
    ensures FlatAll(a + b) == FlatAll(a) + FlatAll(b) && Segments(a + b) == Segments(a) + Segments(b)
  {
    if a == [] {
      assert a + b == b;
    } else {
      assert (a + b)[1..] == a[1..] + b;
      FlatAllConcat(a[1..], b);
    }
  }

  lemma FlatAllLast(b: seq<seq<seq<byte>>>, n: nat)
    requires 0 < n <= |b|
    ensures FlatAll(b[..n]) == FlatAll(b[..n - 1]) + Flat(b[n - 1])
    ensures Segments(b[..n]) == Segments(b[..n - 1]) + |b[n - 1]|
  {
    assert b[..n] == b[..n - 1] + [b[n - 1]];
    FlatAllConcat(b[..n - 1], [b[n - 1]]);
    assert [b[n - 1]][1..] == [];
    assert FlatAll([b[n - 1]]) == Flat(b[n - 1]) + [];
  }

  /** Collecting results that restore each buffer restores all data. */
  lemma {:induction false} CollectedFlat(b: seq<seq<seq<byte>>>, n: nat, f: seq<byte> -> seq<byte>)
    requires n <= |b| && forall i :: 0 <= i < n ==> f(Flat(b[i])) == Flat(b[i])
    ensures Collected(Range(0, n), Results(b, f)) == FlatAll(b[..n])
  {
    if n > 0 {
      RangeLast(n);
      CollectedFlat(b, n - 1, f);
      FlatAllLast(b, n);
    }
  }

  // ----- Two passes

  /** How the device answers in one pass of the test: to the first loop and to the second. */
  datatype Pass = Pass(turns: seq<Turn>, last: seq<seq<nat>>)

  /** Where a pass over `total` buffers ends. */
  function EndOf(pass: Pass, total: nat, burst: nat): Line {
    DrainLine(RunLine(Line(0, [], []), pass.turns, total, burst), pass.last, total, burst)
  }

  predicate Finished(pass: Pass, total: nat, burst: nat) {
    RunLine(Line(0, [], []), pass.turns, total, burst).next == total && |EndOf(pass, total, burst).done| >= total
  }

  ghost predicate KeepsOrder(pass: Pass) {
    && (forall i :: 0 <= i < |pass.turns| ==> Orderly(pass.turns[i].picks))
    && (forall i :: 0 <= i < |pass.last| ==> Orderly(pass.last[i]))
  }

  lemma AllBack(pass: Pass, total: nat, burst: nat)
    requires Finished(pass, total, burst)
    ensures multiset(EndOf(pass, total, burst).done) == multiset(Range(0, total))
  {
    var l := RunLine(Line(0, [], []), pass.turns, total, burst);
    RunLaws(Line(0, [], []), pass.turns, total, burst);
    DrainLaws(l, pass.last, total, burst);
    NothingInFlight(EndOf(pass, total, burst), total);
  }

  /** The destination buffers after the operations for the buffers `done` came back. */
  function Filled(done: seq<nat>, produce: nat -> seq<byte>): map<nat, seq<byte>> {
    if done == [] then map[]
    else
      var n := |done| - 1;
      Filled(done[..n], produce)[done[n] := produce(done[n])]
  }

  lemma {:induction false} FilledAt(done: seq<nat>, produce: nat -> seq<byte>, i: nat)
    requires i in done
    ensures i in Filled(done, produce) && Filled(done, produce)[i] == produce(i)
  {
    var n := |done| - 1;
    if i != done[n] {
      assert done == done[..n] + [done[n]];
      FilledAt(done[..n], produce, i);
    }
  }

  /** What a device that computes `f` makes of the filled buffer `i`. */
  function FromFilled(m: map<nat, seq<byte>>, f: seq<byte> -> seq<byte>): nat -> seq<byte> {
    (i: nat) => if i in m then f(m[i]) else []
  }

  lemma {:induction false} CollectedSame(bufs: seq<nat>, p: nat -> seq<byte>, q: nat -> seq<byte>)
    requires forall i :: i in bufs ==> p(i) == q(i)
    ensures Collected(bufs, p) == Collected(bufs, q)
  {
    if bufs != [] {
      CollectedSame(bufs[..|bufs| - 1], p, q);
    }
  }

  lemma InRange(n: nat, i: nat)
    ensures i in multiset(Range(0, n)) <==> i < n
  {
    assert i < n ==> Range(0, n)[i] == i;
    assert i in multiset(Range(0, n)) <==> i in Range(0, n);
  }

  /** What the second pass makes of the buffers the first one filled. */
  lemma SecondResults(b: seq<seq<seq<byte>>>, first: Pass, burst: nat,
                      compress: seq<byte> -> seq<byte>, decompress: seq<byte> -> seq<byte>, i: nat)
    requires Finished(first, |b|, burst) && i < |b|
    ensures var done := EndOf(first, |b|, burst).done;
      FromFilled(Filled(done, Results(b, compress)), decompress)(i) == decompress(compress(Flat(b[i])))
  {
    var done := EndOf(first, |b|, burst).done;
    AllBack(first, |b|, burst);
    InRange(|b|, i);
    assert i in multiset(done);
    FilledAt(done, Results(b, compress), i);
  }

  /** Compressing and decompressing one buffer. */
  function ThereAndBack(compress: seq<byte> -> seq<byte>, decompress: seq<byte> -> seq<byte>): seq<byte> -> seq<byte> {
    (x: seq<byte>) => decompress(compress(x))
  }

  /** Decompressing what the first pass made, in order. */
  lemma SecondCollects(b: seq<seq<seq<byte>>>, first: Pass, second: Pass, burst: nat,
                       compress: seq<byte> -> seq<byte>, decompress: seq<byte> -> seq<byte>)
    requires Finished(first, |b|, burst) && Finished(second, |b|, burst) && KeepsOrder(second)
    ensures var compressed := Filled(EndOf(first, |b|, burst).done, Results(b, compress));
      Collected(EndOf(second, |b|, burst).done, FromFilled(compressed, decompress))
        == Collected(Range(0, |b|), Results(b, ThereAndBack(compress, decompress)))
  {
    var produce := FromFilled(Filled(EndOf(first, |b|, burst).done, Results(b, compress)), decompress);
    var restored := Results(b, ThereAndBack(compress, decompress));
    OutputInOrder(second.turns, second.last, |b|, burst, produce);
    forall i | i in Range(0, |b|) ensures produce(i) == restored(i) {
      SecondResults(b, first, burst, compress, decompress, i);
    }
    CollectedSame(Range(0, |b|), produce, restored);
  }

  lemma AllRestored(b: seq<seq<seq<byte>>>, compress: seq<byte> -> seq<byte>, decompress: seq<byte> -> seq<byte>)
    requires forall i :: 0 <= i < |b| ==> decompress(compress(Flat(b[i]))) == Flat(b[i])
    ensures Collected(Range(0, |b|), Results(b, ThereAndBack(compress, decompress))) == FlatAll(b)
  {
    CollectedFlat(b, |b|, ThereAndBack(compress, decompress));
    assert b[..|b|] == b;
  }

  /** The round trip of the verify test. The first pass compresses the input buffers into
      others, whatever order they come back in; the second decompresses those. If
      decompression undoes compression on every buffer and the device keeps order in the
      second pass, the test collects its input, byte for byte. */
  lemma VerifyRoundTrip(input: seq<byte>, segSz: nat, maxSgl: nat, first: Pass, second: Pass, burst: nat,
                        compress: seq<byte> -> seq<byte>, decompress: seq<byte> -> seq<byte>)
    requires segSz > 0 && maxSgl > 0
    requires var b := Buffers(input, segSz, maxSgl);
      && Finished(first, |b|, burst) && Finished(second, |b|, burst) && KeepsOrder(second)
      && forall i :: 0 <= i < |b| ==> decompress(compress(Flat(b[i]))) == Flat(b[i])
    ensures var b := Buffers(input, segSz, maxSgl);
      var compressed := Filled(EndOf(first, |b|, burst).done, Results(b, compress));
      Collected(EndOf(second, |b|, burst).done, FromFilled(compressed, decompress)) == input
  {
    var b := Buffers(input, segSz, maxSgl);
    SecondCollects(b, first, second, burst, compress, decompress);
    AllRestored(b, compress, decompress);
    BuffersLaws(input, segSz, maxSgl);
  }

  // ----- Memory for the output

  lemma Times(k: nat, x: nat, y: nat)
    ensures k * (x + y) == k * x + k * y && k * y >= 0
  {}

  lemma CollectedWithout(bufs: seq<nat>, produce: nat -> seq<byte>, j: nat)
    requires j < |bufs|
    ensures |Collected(bufs, produce)| == |Collected(Without(bufs, j), produce)| + |produce(bufs[j])|
  {
    CollectedConcat(bufs[..j], bufs[j + 1..], produce);
    CollectedConcat(bufs[..j] + [bufs[j]], bufs[j + 1..], produce);
    assert bufs == bufs[..j] + [bufs[j]] + bufs[j + 1..];
    assert (bufs[..j] + [bufs[j]])[..j] == bufs[..j];
  }

  /** The bytes that the output buffers for the first `n` input buffers have room for. */
  function RoomFor(b: seq<seq<seq<byte>>>, n: nat, outSegSz: nat): nat
    requires n <= |b|
  {
    if n == 0 then 0 else RoomFor(b, n - 1, outSegSz) + outSegSz * |b[n - 1]|
  }

  lemma {:induction false} RoomIs(b: seq<seq<seq<byte>>>, n: nat, outSegSz: nat)
    requires n <= |b|
    ensures RoomFor(b, n, outSegSz) == outSegSz * Segments(b[..n])
  {
    if n > 0 {
      RoomIs(b, n - 1, outSegSz);
      FlatAllLast(b, n);
      Times(outSegSz, Segments(b[..n - 1]), |b[n - 1]|);
    }
  }

  lemma RoomWithin(b: seq<seq<seq<byte>>>, n: nat, outSegSz: nat)
    requires n <= |b|
    ensures RoomFor(b, n, outSegSz) <= outSegSz * Segments(b)
  {
    RoomIs(b, n, outSegSz);
    SegmentsWithin(b, n);
    TimesMore(outSegSz, Segments(b[..n]), Segments(b));
  }

  lemma SegmentsWithin(b: seq<seq<seq<byte>>>, n: nat)
    requires n <= |b|
    ensures Segments(b[..n]) <= Segments(b)
  {
    assert b == b[..n] + b[n..];
    FlatAllConcat(b[..n], b[n..]);
  }

  lemma TimesMore(k: nat, x: nat, y: nat)
    requires x <= y
    ensures k * x <= k * y
  {
    Times(k, x, y - x);
  }

  lemma MinusOne(w: multiset<nat>, q: multiset<nat>, r: multiset<nat>, r': multiset<nat>, x: nat)
    requires q <= r'
    ensures var one: multiset<nat> := multiset{x}; one + w == q && r' == r + one ==> w <= r
  {
    var one: multiset<nat> := multiset{x};
    if one + w == q && r' == r + one {
      forall y: nat ensures w[y] <= r[y] {
        assert q[y] <= r'[y];
      }
    }
  }

  /** All but the last of the first `n`. */
  lemma OneLess(bufs: seq<nat>, n: nat, j: nat)
    requires n > 0 && multiset(bufs) <= multiset(Range(0, n))
    ensures j < |bufs| && bufs[j] == n - 1 ==> multiset(Without(bufs, j)) <= multiset(Range(0, n - 1))
    ensures n - 1 !in bufs ==> multiset(bufs) <= multiset(Range(0, n - 1))
  {
    assert Range(0, n) == Range(0, n - 1) + [n - 1];
    if j < |bufs| && bufs[j] == n - 1 {
      WithoutOne(bufs, j);
      MinusOne(multiset(Without(bufs, j)), multiset(bufs), multiset(Range(0, n - 1)), multiset(Range(0, n)), bufs[j]);
    }
    assert n - 1 !in bufs ==> n - 1 !in multiset(bufs);
  }

  /** Results that fit their own output buffers fit all output buffers together, in
      whatever order they are collected. */
  lemma {:induction false} OutputFits(b: seq<seq<seq<byte>>>, n: nat, bufs: seq<nat>, produce: nat -> seq<byte>,
                                      outSegSz: nat)
    requires n <= |b| && forall i :: 0 <= i < |b| ==> |produce(i)| <= outSegSz * |b[i]|
    requires multiset(bufs) <= multiset(Range(0, n))
    ensures |Collected(bufs, produce)| <= RoomFor(b, n, outSegSz)
    decreases n
  {
    if n == 0 {
      assert |multiset(bufs)| == 0;
    } else if n - 1 in bufs {
      var j :| 0 <= j < |bufs| && bufs[j] == n - 1;
      OneLess(bufs, n, j);
      CollectedWithout(bufs, produce, j);
      OutputFits(b, n - 1, Without(bufs, j), produce, outSegSz);
    } else {
      OneLess(bufs, n, 0);
      OutputFits(b, n - 1, bufs, produce, outSegSz);
    }
  }

  /** So the memory allocated for the output is never too small, wherever a run is and
      whatever order the device keeps. */
  lemma AllocationFits(input: seq<byte>, segSz: nat, maxSgl: nat, l: Line, produce: nat -> seq<byte>, outSegSz: nat)
    requires segSz > 0 && maxSgl > 0 && Accounted(l) && l.next <= |Buffers(input, segSz, maxSgl)|
    requires var b := Buffers(input, segSz, maxSgl); forall i :: 0 <= i < |b| ==> |produce(i)| <= outSegSz * |b[i]|
    ensures |Collected(l.done, produce)| <= outSegSz * TotalSegs(|input|, segSz, maxSgl, false)
  {
    var b := Buffers(input, segSz, maxSgl);
    BuffersLaws(input, segSz, maxSgl);
    OutputFits(b, l.next, l.done, produce, outSegSz);
    RoomWithin(b, l.next, outSegSz);
  }
}
