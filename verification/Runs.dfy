/**
  Runs of bytes with gaps between them. The bytes of such a list determine the list:
  it is the list of maximal contiguous runs.
 */
module Runs {
  import opened Basics
  import opened Packets

  datatype Run = Run(at: nat, bytes: seq<byte>)

  /** In increasing order, not empty, with a gap after each run, and inside the
      position space. */
  ghost predicate Maximal(rs: seq<Run>) {
    && (forall i :: 0 <= i < |rs| ==> rs[i].bytes != [] && rs[i].at + |rs[i].bytes| <= U32)
    && (forall i, j :: 0 <= i < j < |rs| ==> rs[i].at + |rs[i].bytes| < rs[j].at)
  }

  ghost function SumRuns<K>(k: K, rs: seq<Run>): multiset<Unit<K>> {
    if rs == [] then multiset{} else Units(k, rs[0].at, rs[0].bytes) + SumRuns(k, rs[1..])
  }

  /** A byte of a run is at one of its positions. */
  lemma {:induction false} UnitIn<K>(k: K, at: nat, s: seq<byte>, u: Unit<K>)
    requires at + |s| <= U32
    ensures u in Units(k, at, s) <==> u.owner == k && at <= u.at < at + |s| && s[u.at - at] == u.value
    decreases |s|
  {
    if s != [] {
      var first := Unit(k, at, s[0]);
      assert Units(k, at, s) == multiset{first} + Units(k, at + 1, s[1..]);
      UnitIn(k, at + 1, s[1..], u);
    }
  }

  /** No byte of the later runs is at or before the end of the first one. */
  lemma {:induction false} SumBeyond<K>(k: K, rs: seq<Run>, low: nat, u: Unit<K>)
    requires Maximal(rs) && forall i :: 0 <= i < |rs| ==> low < rs[i].at
    requires u in SumRuns(k, rs)
    ensures low < u.at
  {
    UnitIn(k, rs[0].at, rs[0].bytes, u);
    if u !in Units(k, rs[0].at, rs[0].bytes) {
      SumBeyond(k, rs[1..], low, u);
    }
  }

  /** A byte at or before the end of the first run is in the first run. */
  lemma FirstRun<K>(k: K, rs: seq<Run>, u: Unit<K>)
    requires Maximal(rs) && rs != [] && u in SumRuns(k, rs)
    ensures rs[0].at <= u.at
    ensures u.at <= rs[0].at + |rs[0].bytes| ==> u in Units(k, rs[0].at, rs[0].bytes)
  {
    UnitIn(k, rs[0].at, rs[0].bytes, u);
    if u !in Units(k, rs[0].at, rs[0].bytes) {
      SumBeyond(k, rs[1..], rs[0].at + |rs[0].bytes|, u);
    }
  }

  /** The byte at offset `j` of the first run of `a`, seen in `b`. */
  lemma SameByte<K>(k: K, a: seq<Run>, b: seq<Run>, j: nat)
    requires Maximal(a) && Maximal(b) && a != [] && b != [] && SumRuns(k, a) == SumRuns(k, b)
    requires j < |a[0].bytes|
    ensures b[0].at <= a[0].at + j
    ensures a[0].at == b[0].at && j <= |b[0].bytes| ==> j < |b[0].bytes| && b[0].bytes[j] == a[0].bytes[j]
  {
    var u := Unit(k, a[0].at + j, a[0].bytes[j]);
    UnitIn(k, a[0].at, a[0].bytes, u);
    assert u in SumRuns(k, a);
    FirstRun(k, b, u);
    if a[0].at == b[0].at && j <= |b[0].bytes| {
      UnitIn(k, b[0].at, b[0].bytes, u);
    }
  }

  lemma SameFirst<K>(k: K, a: seq<Run>, b: seq<Run>)
    requires Maximal(a) && Maximal(b) && a != [] && b != [] && SumRuns(k, a) == SumRuns(k, b)
    ensures a[0] == b[0]
  {
    SameByte(k, a, b, 0);
    SameByte(k, b, a, 0);
    if |a[0].bytes| < |b[0].bytes| {
      SameByte(k, b, a, |a[0].bytes|);
    } else if |b[0].bytes| < |a[0].bytes| {
      SameByte(k, a, b, |b[0].bytes|);
    }
    forall j | 0 <= j < |a[0].bytes| ensures a[0].bytes[j] == b[0].bytes[j] {
      SameByte(k, a, b, j);
    }
  }

  /** The run that a byte is in. */
  lemma {:induction false} RunAt<K>(k: K, rs: seq<Run>, x: nat) returns (i: nat)
    requires Maximal(rs) && exists u :: u in SumRuns(k, rs) && u.at == x
    ensures i < |rs| && rs[i].at <= x < rs[i].at + |rs[i].bytes|
    decreases |rs|
  {
    var u :| u in SumRuns(k, rs) && u.at == x;
    UnitIn(k, rs[0].at, rs[0].bytes, u);
    if u in Units(k, rs[0].at, rs[0].bytes) {
      i := 0;
    } else {
      assert u in SumRuns(k, rs[1..]);
      var j := RunAt(k, rs[1..], x);
      i := j + 1;
    }
  }

  lemma SomeByte<K>(k: K, rs: seq<Run>)
    requires Maximal(rs)
    ensures rs != [] <==> SumRuns(k, rs) != multiset{}
  {
    if rs != [] {
      assert Unit(k, Wrap(rs[0].at), rs[0].bytes[0]) in SumRuns(k, rs);
    }
  }

  /** Maximal runs are determined by their bytes. */
  lemma {:induction false} SameRuns<K>(k: K, a: seq<Run>, b: seq<Run>)
    requires Maximal(a) && Maximal(b) && SumRuns(k, a) == SumRuns(k, b)
    ensures a == b
  {
    SomeByte(k, a);
    SomeByte(k, b);
    if a != [] {
      SameFirst(k, a, b);
      Cancel(Units(k, a[0].at, a[0].bytes), SumRuns(k, a[1..]), SumRuns(k, b[1..]));
      SameRuns(k, a[1..], b[1..]);
      assert a == [a[0]] + a[1..] && b == [b[0]] + b[1..];
    }
  }
}
