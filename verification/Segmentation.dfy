/**
  How the compression performance tests cut their input into buffers of segments
  (`comp_perf_allocate_memory` and `prepare_bufs` in `comp_perf_test_common.c`).
 */
module Segmentation {
  import opened Basics

  function DivCeil(a: nat, b: nat): nat
    requires b > 0
  {
    a / b + (if a % b != 0 then 1 else 0)
  }

  // ----- Cutting data

  function Head(data: seq<byte>, segSz: nat): seq<byte> { if |data| <= segSz then data else data[..segSz] }

  function Tail(data: seq<byte>, segSz: nat): seq<byte> { if |data| <= segSz then [] else data[segSz..] }

  /** The segments of one buffer: always one, and up to `n` while there is data. */
  function Chop(data: seq<byte>, segSz: nat, n: nat): seq<seq<byte>>
    decreases n
  {
    [Head(data, segSz)] + (if n <= 1 || Tail(data, segSz) == [] then [] else Chop(Tail(data, segSz), segSz, n - 1))
  }

  /** The data behind it. */
  function After(data: seq<byte>, segSz: nat, n: nat): seq<byte>
    decreases n
  {
    if n <= 1 then Tail(data, segSz) else After(Tail(data, segSz), segSz, n - 1)
  }

  function Buffers(data: seq<byte>, segSz: nat, maxSgl: nat): seq<seq<seq<byte>>>
    requires segSz > 0
    decreases |data|
  {
    if data == [] then []
    else
      AfterShrinks(data, segSz, maxSgl);
      [Chop(data, segSz, maxSgl)] + Buffers(After(data, segSz, maxSgl), segSz, maxSgl)
  }

  lemma {:induction false} AfterShrinks(data: seq<byte>, segSz: nat, n: nat)
    requires segSz > 0
    ensures |After(data, segSz, n)| <= |Tail(data, segSz)| && (data != [] ==> |After(data, segSz, n)| < |data|)
    decreases n
  {
    if n > 1 {
      AfterShrinks(Tail(data, segSz), segSz, n - 1);
    }
  }

  function Flat(s: seq<seq<byte>>): seq<byte> { if s == [] then [] else s[0] + Flat(s[1..]) }

  function FlatAll(s: seq<seq<seq<byte>>>): seq<byte> { if s == [] then [] else Flat(s[0]) + FlatAll(s[1..]) }

  function Segments(s: seq<seq<seq<byte>>>): nat { if s == [] then 0 else |s[0]| + Segments(s[1..]) }

  // ----- Laws of the cut

  lemma Apart(x: int, y: int, b: nat)
    requires x < y
    ensures x * b + b <= y * b
  {
    assert y * b == x * b + b + (y - x - 1) * b;
  }

  lemma DivUnique(a: nat, b: nat, q: int, r: int)
    requires 0 <= r < b && a == q * b + r
    ensures a / b == q && a % b == r
  {
    assert a == (a / b) * b + a % b;
    if a / b < q {
      Apart(a / b, q, b);
    } else if a / b > q {
      Apart(q, a / b, b);
    }
  }

  lemma DivCeilStep(a: nat, b: nat)
    requires b > 0
    ensures a > 0 ==> DivCeil(a, b) == 1 + DivCeil(if a <= b then 0 else a - b, b)
    ensures DivCeil(0, b) == 0
  {
    DivUnique(0, b, 0, 0);
    if a > b {
      assert a == (a / b) * b + a % b;
      DivUnique(a - b, b, a / b - 1, a % b);
    } else if a == b {
      DivUnique(a, b, 1, 0);
    } else if a > 0 {
      DivUnique(a, b, 0, a);
    }
  }

  /** One buffer: nothing is lost, no segment is too long, only the last one is short,
      and there are as many segments as the data needs, at most `n`. */
  lemma {:induction false} ChopLaws(data: seq<byte>, segSz: nat, n: nat)
    requires segSz > 0 && n > 0 && data != []
    ensures ChopOk(data, segSz, n, Chop(data, segSz, n), After(data, segSz, n))
    decreases n
  {
    var t := Tail(data, segSz);
    if n > 1 && t != [] {
      ChopLaws(t, segSz, n - 1);
      ChopMore(data, segSz, n, Chop(t, segSz, n - 1), After(t, segSz, n - 1));
    } else {
      EmptyAfter(segSz, n - 1);
      DivCeilStep(|data|, segSz);
      DivCeilStep(0, segSz);
      assert data == Head(data, segSz) + t;
      assert Flat([Head(data, segSz)]) == Head(data, segSz);
    }
  }

  ghost predicate ChopOk(data: seq<byte>, segSz: nat, n: nat, c: seq<seq<byte>>, rest: seq<byte>)
    requires segSz > 0
  {
    && Flat(c) + rest == data && 1 <= |c| <= n && (rest != [] ==> |c| == n)
    && (forall i :: 0 <= i < |c| ==> 1 <= |c[i]| <= segSz)
    && (forall i :: 0 <= i < |c| && (i < |c| - 1 || rest != []) ==> |c[i]| == segSz)
    && DivCeil(|data|, segSz) == |c| + DivCeil(|rest|, segSz)
  }

  lemma ChopMore(data: seq<byte>, segSz: nat, n: nat, c: seq<seq<byte>>, rest: seq<byte>)
    requires segSz > 0 && n > 1 && Tail(data, segSz) != [] && ChopOk(Tail(data, segSz), segSz, n - 1, c, rest)
    ensures ChopOk(data, segSz, n, [Head(data, segSz)] + c, rest)
  {
    var h := Head(data, segSz);
    DivCeilStep(|data|, segSz);
    assert ([h] + c)[1..] == c;
    assert data == h + (Flat(c) + rest) == (h + Flat(c)) + rest;
  }

  lemma {:induction false} EmptyAfter(segSz: nat, n: nat)
    ensures After([], segSz, n) == []
    decreases n
  {
    if n > 1 {
      EmptyAfter(segSz, n - 1);
    }
  }

  /** The buffers `b` hold exactly the data, in order, in segments of at most `segSz` bytes,
      at most `maxSgl` a buffer, and there are as many segments and buffers as counted on. */
  ghost predicate Holds(b: seq<seq<seq<byte>>>, data: seq<byte>, segSz: nat, maxSgl: nat)
    requires segSz > 0 && maxSgl > 0
  {
    && FlatAll(b) == data
    && (forall i :: 0 <= i < |b| ==> 1 <= |b[i]| <= maxSgl)
    && (forall i, j :: 0 <= i < |b| && 0 <= j < |b[i]| ==> 1 <= |b[i][j]| <= segSz)
    && Segments(b) == DivCeil(|data|, segSz) && |b| == DivCeil(DivCeil(|data|, segSz), maxSgl)
  }

  lemma {:induction false} BuffersLaws(data: seq<byte>, segSz: nat, maxSgl: nat)
    requires segSz > 0 && maxSgl > 0
    ensures Holds(Buffers(data, segSz, maxSgl), data, segSz, maxSgl)
    decreases |data|
  {
    if data != [] {
      AfterShrinks(data, segSz, maxSgl);
      ChopLaws(data, segSz, maxSgl);
      BuffersLaws(After(data, segSz, maxSgl), segSz, maxSgl);
      HoldsMore(data, segSz, maxSgl, Chop(data, segSz, maxSgl), After(data, segSz, maxSgl),
        Buffers(After(data, segSz, maxSgl), segSz, maxSgl));
    } else {
      DivCeilStep(0, segSz);
      DivCeilStep(0, maxSgl);
    }
  }

  lemma HoldsMore(data: seq<byte>, segSz: nat, maxSgl: nat, c: seq<seq<byte>>, rest: seq<byte>, b: seq<seq<seq<byte>>>)
    requires segSz > 0 && maxSgl > 0 && ChopOk(data, segSz, maxSgl, c, rest) && Holds(b, rest, segSz, maxSgl)
    ensures Holds([c] + b, data, segSz, maxSgl)
  {
    assert ([c] + b)[1..] == b;
    DivCeilStep(DivCeil(|data|, segSz), maxSgl);
    DivCeilStep(0, segSz);
    DivCeilStep(0, maxSgl);
  }

  // ----- The loops

  /** A segment with data copied into it, or one that is only reserved. */
  datatype Segment = Filled(bytes: seq<byte>) | Blank(size: nat)

  function FilledWith(c: seq<seq<byte>>): seq<Segment> { seq(|c|, i requires 0 <= i < |c| => Filled(c[i])) }

  function Blanks(n: nat, size: nat): seq<Segment> { seq(n, _ => Blank(size)) }

  /** What is still to come in a buffer that has room for `left` more segments. */
  function StillToFill(rest: seq<byte>, segSz: nat, left: nat): seq<Segment> {
    if left > 0 && rest != [] then FilledWith(Chop(rest, segSz, left)) else []
  }

  function StillLeft(rest: seq<byte>, segSz: nat, left: nat): seq<byte> {
    if left > 0 && rest != [] then After(rest, segSz, left) else rest
  }

  ghost predicate Filling(data: seq<byte>, segSz: nat, n: nat, segs: seq<Segment>, rest: seq<byte>) {
    && |segs| <= n && FilledWith(Chop(data, segSz, n)) == segs + StillToFill(rest, segSz, n - |segs|)
    && After(data, segSz, n) == StillLeft(rest, segSz, n - |segs|)
  }

  lemma FillOne(data: seq<byte>, segSz: nat, n: nat)
    requires n > 0
    ensures FilledWith(Chop(data, segSz, n))
      == [Filled(Head(data, segSz))] + StillToFill(Tail(data, segSz), segSz, n - 1)
    ensures After(data, segSz, n) == StillLeft(Tail(data, segSz), segSz, n - 1)
  {
    var rest := Tail(data, segSz);
    EmptyAfter(segSz, n - 1);
    if n > 1 && rest != [] {
      FilledMore(Head(data, segSz), Chop(rest, segSz, n - 1));
    } else {
      FilledMore(Head(data, segSz), []);
    }
  }

  lemma FilledMore(h: seq<byte>, c: seq<seq<byte>>)
    ensures FilledWith([h] + c) == [Filled(h)] + FilledWith(c)
  {}

  lemma FillNext(data: seq<byte>, segSz: nat, n: nat, segs: seq<Segment>, rest: seq<byte>)
    requires Filling(data, segSz, n, segs, rest) && |segs| < n && rest != []
    ensures Filling(data, segSz, n, segs + [Filled(Head(rest, segSz))], Tail(rest, segSz))
  {
    FillOne(rest, segSz, n - |segs|);
    Regroup(segs, Filled(Head(rest, segSz)), StillToFill(Tail(rest, segSz), segSz, n - |segs| - 1));
  }

  lemma Regroup<T>(a: seq<T>, x: T, b: seq<T>)
    ensures a + ([x] + b) == (a + [x]) + b
  {}

  /** A segment taken from a pool of which `used` of `totalSegs` are in use, with the next
      piece of the input appended. */
  method AppendSegment(input: seq<byte>, pos: nat, segSz: nat, used: nat, totalSegs: nat)
    returns (ok: bool, seg: Segment, pos': nat)
    requires segSz > 0 && pos <= |input|
    ensures ok <==> used < totalSegs
    ensures ok ==> pos' <= |input| && seg == Filled(Head(input[pos..], segSz))
    ensures ok ==> input[pos'..] == Tail(input[pos..], segSz)
  {
    if used >= totalSegs {
      return false, Blank(0), pos;
    }
    var dataSz := Min(|input| - pos, segSz);
    assert input[pos..][..dataSz] == input[pos..pos + dataSz];
    ok, seg, pos' := true, Filled(input[pos..pos + dataSz]), pos + dataSz;
  }

  /** The chain of segments that data is copied to: the input of compression, or the
      compressed input of a test that only decompresses. The pool never runs out. */
  method FillSegments(input: seq<byte>, pos: nat, segSz: nat, n: nat, used: nat, totalSegs: nat)
    returns (ok: bool, segs: seq<Segment>, pos': nat)
    requires segSz > 0 && n > 0 && pos <= |input|
    requires used < totalSegs && used + Min(n, DivCeil(|input| - pos, segSz)) <= totalSegs
    ensures ok && segs == FilledWith(Chop(input[pos..], segSz, n))
    ensures pos' <= |input| && input[pos'..] == After(input[pos..], segSz, n)
  {
    var seg;
    FillOne(input[pos..], segSz, n);
    DivCeilStep(|input| - pos, segSz);
    ok, seg, pos' := AppendSegment(input, pos, segSz, used, totalSegs);
    segs := [seg];
    while |segs| < n && pos' < |input|
      invariant pos' <= |input| && Filling(input[pos..], segSz, n, segs, input[pos'..])
      invariant ok && used + |segs| + Min(n - |segs|, DivCeil(|input| - pos', segSz)) <= totalSegs
      decreases n - |segs|
    {
      FillNext(input[pos..], segSz, n, segs, input[pos'..]);
      DivCeilStep(|input| - pos', segSz);
      ok, seg, pos' := AppendSegment(input, pos', segSz, used + |segs|, totalSegs);
      if !ok {
        return;
      }
      segs := segs + [seg];
    }
  }

  /** The chain of segments that are only reserved. */
  method ReserveSegments(size: nat, n: nat, used: nat, totalSegs: nat) returns (ok: bool, segs: seq<Segment>)
    requires used + n <= totalSegs
    ensures ok && segs == Blanks(n, size)
  {
    segs, ok := [], true;
    while |segs| < n
      invariant |segs| <= n && segs == Blanks(|segs|, size)
    {
      if used + |segs| >= totalSegs {
        return false, segs;
      }
      segs := segs + [Blank(size)];
    }
  }

  function TotalSegs(size: nat, segSz: nat, maxSgl: nat, decompressOnly: bool): nat
    requires segSz > 0
  {
    if decompressOnly then maxSgl else DivCeil(size, segSz)
  }

  /** There are segments for the next buffer. */
  lemma PoolSuffices(input: seq<byte>, pos: nat, segSz: nat, maxSgl: nat, used: nat)
    requires segSz > 0 && maxSgl > 0 && pos < |input|
    requires used + DivCeil(|input| - pos, segSz) == DivCeil(|input|, segSz)
    ensures used < DivCeil(|input|, segSz)
    ensures used + Min(maxSgl, DivCeil(|input| - pos, segSz)) <= DivCeil(|input|, segSz)
    ensures used + |Chop(input[pos..], segSz, maxSgl)| <= DivCeil(|input|, segSz)
  {
    var rest := input[pos..];
    DivCeilStep(|rest|, segSz);
    ChopLaws(rest, segSz, maxSgl);
    AtMost(used, |Chop(rest, segSz, maxSgl)|, DivCeil(|rest|, segSz), maxSgl, DivCeil(|input|, segSz));
  }

  lemma AtMost(used: nat, cut: nat, need: nat, max: nat, total: nat)
    requires used + need == total && need > 0 && cut == Min(max, need)
    ensures used < total && used + Min(max, need) <= total && used + cut <= total
  {}

  /** One pair of buffers. */
  method PrepareBuf(input: seq<byte>, pos: nat, segSz: nat, outSegSz: nat, maxSgl: nat, decompressOnly: bool, dmz: nat,
                    cmz: nat)
    returns (ok: bool, d: seq<Segment>, c: seq<Segment>, pos': nat)
    requires segSz > 0 && maxSgl > 0 && pos <= |input|
    requires if decompressOnly then dmz == cmz == 0
      else pos < |input| && dmz == cmz && dmz + DivCeil(|input| - pos, segSz) == DivCeil(|input|, segSz)
    ensures ok && pos' <= |input|
    ensures var n := if decompressOnly && input == [] then 1 else maxSgl; var cut := Chop(input[pos..], segSz, n);
      && input[pos'..] == After(input[pos..], segSz, n)
      && (decompressOnly ==> d == Blanks(n, outSegSz) && c == FilledWith(cut))
      && (!decompressOnly ==> d == FilledWith(cut) && c == Blanks(|cut|, outSegSz))
  {
    var totalSegs := TotalSegs(|input|, segSz, maxSgl, decompressOnly);
    c, pos' := [], pos;
    if decompressOnly {
      ok, d := ReserveSegments(outSegSz, if |input| > 0 then maxSgl else 1, dmz, totalSegs);
    } else {
      PoolSuffices(input, pos, segSz, maxSgl, dmz);
      ok, d, pos' := FillSegments(input, pos, segSz, maxSgl, dmz, totalSegs);
    }
    if !ok {
      return;
    }
    if decompressOnly {
      ok, c, pos' := FillSegments(input, pos, segSz, |d|, cmz, totalSegs);
    } else {
      ok, c := ReserveSegments(outSegSz, |d|, cmz, totalSegs);
    }
  }

  function FilledAll(b: seq<seq<seq<byte>>>): seq<seq<Segment>> {
    seq(|b|, i requires 0 <= i < |b| => FilledWith(b[i]))
  }

  function BlankAll(b: seq<seq<seq<byte>>>, size: nat): seq<seq<Segment>> {
    seq(|b|, i requires 0 <= i < |b| => Blanks(|b[i]|, size))
  }

  /** `prepare_bufs` for a test that compresses: the input buffers hold the input, the
      output buffers mirror them, and both use all segments of their pools. */
  ghost predicate Prepared(input: seq<byte>, segSz: nat, outSegSz: nat, maxSgl: nat, d: seq<seq<Segment>>,
                           c: seq<seq<Segment>>, from: nat)
    requires segSz > 0 && from <= |input|
  {
    var b, rest := Buffers(input, segSz, maxSgl), Buffers(input[from..], segSz, maxSgl);
    && |d| == |c| && |d| + |rest| == |b| && b[|d|..] == rest
    && d == FilledAll(b[..|d|]) && c == BlankAll(b[..|d|], outSegSz)
  }

  /** The buffers of a test that only decompresses. */
  ghost predicate OnlyBuffer(input: seq<byte>, segSz: nat, outSegSz: nat, maxSgl: nat, d: seq<seq<Segment>>,
                             c: seq<seq<Segment>>) {
    var n := if input == [] then 1 else maxSgl;
    d == [Blanks(n, outSegSz)] && c == [FilledWith(Chop(input, segSz, n))]
  }

  ghost predicate Progress(input: seq<byte>, segSz: nat, outSegSz: nat, maxSgl: nat, decompressOnly: bool,
                           d: seq<seq<Segment>>, c: seq<seq<Segment>>, pos: nat, dmz: nat, cmz: nat)
    requires segSz > 0
  {
    && pos <= |input|
    && if decompressOnly then
         if d == c == [] then pos == dmz == cmz == 0 else OnlyBuffer(input, segSz, outSegSz, maxSgl, d, c)
       else
         Prepared(input, segSz, outSegSz, maxSgl, d, c, pos)
         && dmz == cmz && dmz + DivCeil(|input| - pos, segSz) == DivCeil(|input|, segSz)
  }

  lemma Begun(input: seq<byte>, segSz: nat, outSegSz: nat, maxSgl: nat, decompressOnly: bool)
    requires segSz > 0 && maxSgl > 0
    ensures Progress(input, segSz, outSegSz, maxSgl, decompressOnly, [], [], 0, 0, 0)
    ensures DivCeil(TotalSegs(|input|, segSz, maxSgl, decompressOnly), maxSgl)
      == if decompressOnly then 1 else |Buffers(input, segSz, maxSgl)|
  {
    BuffersLaws(input, segSz, maxSgl);
    DivCeilStep(maxSgl, maxSgl);
    DivCeilStep(0, maxSgl);
    assert input[0..] == input;
  }

  // ----- What the prepared buffers hold

  function DataOf(s: Segment): seq<byte> { if s.Filled? then s.bytes else [] }

  /** The bytes in the segments of a buffer, and of all buffers. */
  function BytesIn(d: seq<Segment>): seq<byte> { if d == [] then [] else DataOf(d[0]) + BytesIn(d[1..]) }

  function BytesInAll(d: seq<seq<Segment>>): seq<byte> { if d == [] then [] else BytesIn(d[0]) + BytesInAll(d[1..]) }

  /** The room in the reserved segments of a buffer. */
  function RoomIn(c: seq<Segment>): nat {
    if c == [] then 0 else (if c[0].Blank? then c[0].size else 0) + RoomIn(c[1..])
  }

  lemma {:induction false} FilledBytes(c: seq<seq<byte>>)
    ensures BytesIn(FilledWith(c)) == Flat(c)
  {
    if c != [] {
      assert FilledWith(c)[1..] == FilledWith(c[1..]);
      FilledBytes(c[1..]);
    }
  }

  lemma {:induction false} FilledAllBytes(b: seq<seq<seq<byte>>>)
    ensures BytesInAll(FilledAll(b)) == FlatAll(b)
  {
    if b != [] {
      assert FilledAll(b)[1..] == FilledAll(b[1..]);
      FilledBytes(b[0]);
      FilledAllBytes(b[1..]);
    }
  }

  lemma {:induction false} BlankRoom(n: nat, size: nat)
    ensures RoomIn(Blanks(n, size)) == n * size
  {
    if n > 0 {
      assert Blanks(n, size)[1..] == Blanks(n - 1, size);
      BlankRoom(n - 1, size);
      OneMoreTimes(n - 1, size);
    }
  }

  /** Input and output buffer `i`: data in segments of at most `segSz` bytes, at most `maxSgl`
      of them, and room for `outSegSz` bytes in the output for each. */
  ghost predicate Paired(d: seq<Segment>, c: seq<Segment>, segSz: nat, outSegSz: nat, maxSgl: nat) {
    && 1 <= |d| <= maxSgl && (forall j :: 0 <= j < |d| ==> d[j].Filled? && 1 <= |d[j].bytes| <= segSz)
    && RoomIn(c) == |d| * outSegSz && |c| == |d|
  }

  /** All buffers of a test that compresses: the input, and room for the output of each. */
  ghost predicate AllPaired(input: seq<byte>, segSz: nat, outSegSz: nat, maxSgl: nat, d: seq<seq<Segment>>,
                            c: seq<seq<Segment>>) {
    && BytesInAll(d) == input && |d| == |c|
    && forall i :: 0 <= i < |d| ==> Paired(d[i], c[i], segSz, outSegSz, maxSgl)
  }

  lemma PreparedLaws(input: seq<byte>, segSz: nat, outSegSz: nat, maxSgl: nat)
    requires segSz > 0 && maxSgl > 0
    ensures var b := Buffers(input, segSz, maxSgl);
      AllPaired(input, segSz, outSegSz, maxSgl, FilledAll(b), BlankAll(b, outSegSz))
  {
    var b := Buffers(input, segSz, maxSgl);
    BuffersLaws(input, segSz, maxSgl);
    FilledAllBytes(b);
    forall i | 0 <= i < |b| ensures Paired(FilledAll(b)[i], BlankAll(b, outSegSz)[i], segSz, outSegSz, maxSgl) {
      BlankRoom(|b[i]|, outSegSz);
    }
  }

  method PrepareBufs(input: seq<byte>, segSz: nat, outSegSz: nat, maxSgl: nat, decompressOnly: bool,
                     decompBufs: array<seq<Segment>>, compBufs: array<seq<Segment>>)
    returns (ok: bool)
    requires segSz > 0 && maxSgl > 0 && decompBufs != compBufs
    requires decompBufs.Length == compBufs.Length == DivCeil(TotalSegs(|input|, segSz, maxSgl, decompressOnly), maxSgl)
    modifies decompBufs, compBufs
    ensures ok
    ensures if decompressOnly then OnlyBuffer(input, segSz, outSegSz, maxSgl, decompBufs[..], compBufs[..])
      else
        var b := Buffers(input, segSz, maxSgl);
        && decompBufs[..] == FilledAll(b) && compBufs[..] == BlankAll(b, outSegSz)
        && AllPaired(input, segSz, outSegSz, maxSgl, decompBufs[..], compBufs[..])
  {
    var pos: nat, dmz: nat, cmz: nat := 0, 0, 0;
    ok := true;
    Begun(input, segSz, outSegSz, maxSgl, decompressOnly);
    for i := 0 to decompBufs.Length
      invariant Progress(input, segSz, outSegSz, maxSgl, decompressOnly, decompBufs[..i], compBufs[..i], pos, dmz, cmz)
      invariant ok
    {
      MoreToDo(input, segSz, outSegSz, maxSgl, decompressOnly, decompBufs[..i], compBufs[..i], pos, dmz, cmz);
      var d, c, pos';
      ok, d, c, pos' := PrepareBuf(input, pos, segSz, outSegSz, maxSgl, decompressOnly, dmz, cmz);
      if !ok {
        return;
      }
      OneMore(input, segSz, outSegSz, maxSgl, decompressOnly, decompBufs[..i], compBufs[..i], pos, pos', dmz, d, c);
      decompBufs[i], compBufs[i] := d, c;
      assert decompBufs[..i + 1] == decompBufs[..i] + [d] && compBufs[..i + 1] == compBufs[..i] + [c];
      pos, dmz, cmz := pos', dmz + |d|, cmz + |c|;
    }
    assert decompBufs[..decompBufs.Length] == decompBufs[..] && compBufs[..compBufs.Length] == compBufs[..];
    if !decompressOnly {
      assert Buffers(input, segSz, maxSgl)[..decompBufs.Length] == Buffers(input, segSz, maxSgl);
      PreparedLaws(input, segSz, outSegSz, maxSgl);
    }
  }

  lemma MoreToDo(input: seq<byte>, segSz: nat, outSegSz: nat, maxSgl: nat, decompressOnly: bool,
                 d: seq<seq<Segment>>, c: seq<seq<Segment>>, pos: nat, dmz: nat, cmz: nat)
    requires segSz > 0 && Progress(input, segSz, outSegSz, maxSgl, decompressOnly, d, c, pos, dmz, cmz)
    requires |d| == |c| < if decompressOnly then 1 else |Buffers(input, segSz, maxSgl)|
    ensures if decompressOnly then d == [] && pos == dmz == cmz == 0 else pos < |input| && dmz == cmz
  {}

  lemma OneMore(input: seq<byte>, segSz: nat, outSegSz: nat, maxSgl: nat, decompressOnly: bool,
                ds: seq<seq<Segment>>, cs: seq<seq<Segment>>, from: nat, to: nat, used: nat,
                d: seq<Segment>, c: seq<Segment>)
    requires segSz > 0 && maxSgl > 0 && to <= |input|
    requires Progress(input, segSz, outSegSz, maxSgl, decompressOnly, ds, cs, from, used, used)
    requires if decompressOnly then ds == cs == [] else from < |input|
    requires var n := if decompressOnly && input == [] then 1 else maxSgl; var cut := Chop(input[from..], segSz, n);
      && input[to..] == After(input[from..], segSz, n)
      && (decompressOnly ==> d == Blanks(n, outSegSz) && c == FilledWith(cut))
      && (!decompressOnly ==> d == FilledWith(cut) && c == Blanks(|cut|, outSegSz))
    ensures Progress(input, segSz, outSegSz, maxSgl, decompressOnly, ds + [d], cs + [c], to, used + |d|, used + |c|)
  {
    if decompressOnly {
      assert input[0..] == input;
    } else {
      OnePrepared(input, segSz, outSegSz, maxSgl, ds, cs, from, to, d, c);
    }
  }

  lemma OnePrepared(input: seq<byte>, segSz: nat, outSegSz: nat, maxSgl: nat, ds: seq<seq<Segment>>,
                    cs: seq<seq<Segment>>, from: nat, to: nat,
                    d: seq<Segment>, c: seq<Segment>)
    requires segSz > 0 && maxSgl > 0 && from < |input| && to <= |input|
    requires Prepared(input, segSz, outSegSz, maxSgl, ds, cs, from)
    requires var cut := Chop(input[from..], segSz, maxSgl);
      input[to..] == After(input[from..], segSz, maxSgl) && d == FilledWith(cut) && c == Blanks(|cut|, outSegSz)
    ensures Prepared(input, segSz, outSegSz, maxSgl, ds + [d], cs + [c], to)
    ensures |d| + DivCeil(|input| - to, segSz) == DivCeil(|input| - from, segSz)
  {
    ChopLaws(input[from..], segSz, maxSgl);
    AfterShrinks(input[from..], segSz, maxSgl);
    OneMoreBuffer(Buffers(input, segSz, maxSgl), |ds|, outSegSz, Chop(input[from..], segSz, maxSgl),
      Buffers(input[to..], segSz, maxSgl));
  }

  lemma OneMoreBuffer(b: seq<seq<seq<byte>>>, n: nat, size: nat, cut: seq<seq<byte>>, rest: seq<seq<seq<byte>>>)
    requires n < |b| && b[n..] == [cut] + rest
    ensures b[n + 1..] == rest && FilledAll(b[..n + 1]) == FilledAll(b[..n]) + [FilledWith(cut)]
    ensures BlankAll(b[..n + 1], size) == BlankAll(b[..n], size) + [Blanks(|cut|, size)]
  {
    assert b[n] == b[n..][0] && b[n + 1..] == b[n..][1..];
  }

  /** A test that only decompresses takes one buffer of at most `maxSgl` segments of input,
      and silently drops the rest: the buffer holds the whole input exactly if that fits. */
  lemma DecompressTakesAll(input: seq<byte>, segSz: nat, maxSgl: nat)
    requires segSz > 0 && maxSgl > 0 && input != []
    ensures Flat(Chop(input, segSz, maxSgl)) == input <==> |input| <= maxSgl * segSz
  {
    var c, rest := Chop(input, segSz, maxSgl), After(input, segSz, maxSgl);
    ChopLaws(input, segSz, maxSgl);
    FlatSize(c, segSz);
    if rest == [] {
      assert Flat(c) + [] == Flat(c);
      Scaled(|c|, maxSgl, segSz);
    } else {
      assert |Flat(c) + rest| > |Flat(c)|;
    }
  }

  lemma Scaled(a: nat, b: nat, k: nat)
    requires a <= b
    ensures a * k <= b * k
  {
    assert b * k == a * k + (b - a) * k;
  }

  lemma {:induction false} FlatSize(c: seq<seq<byte>>, segSz: nat)
    requires forall i :: 0 <= i < |c| ==> |c[i]| <= segSz
    ensures |Flat(c)| <= |c| * segSz
    ensures (forall i :: 0 <= i < |c| ==> |c[i]| == segSz) ==> |Flat(c)| == |c| * segSz
  {
    if c != [] {
      assert forall i :: 0 <= i < |c| - 1 ==> c[1..][i] == c[i + 1];
      FlatSize(c[1..], segSz);
      OneMoreTimes(|c| - 1, segSz);
    }
  }

  lemma OneMoreTimes(n: nat, k: nat)
    ensures (n + 1) * k == k + n * k
  {}
}
