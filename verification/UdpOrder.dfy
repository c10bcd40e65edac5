/**
  Offset order of the fragment chains, and what a flush makes of the fragments of a
  datagram whatever order they arrived in.
 */
module UdpOrder {
  import opened Packets
  import opened FlowTable
  import opened Udp
  import opened UdpLaws

  /** Chains are meant to be ordered by fragment offset. */
  ghost predicate Sorted(c: seq<UdpItem>) {
    forall i, j :: 0 <= i < j < |c| ==> c[i].fragOffset <= c[j].fragOffset
  }

  /** A refused packet lands in order only behind a first item it extends, or in front
      of a later item it precedes. */
  predicate RefusedInPlace(c: seq<UdpItem>, p: Mbuf) {
    var s := StopAt(c, p, 0);
    s < |c| &&
    if s == 0 then Cmp(c[0], p) > 0 && (|c| == 1 || FragOffset(p.hdr) <= c[1].fragOffset)
    else Cmp(c[s], p) < 0
  }

  /** Storing a packet keeps a chain sorted, except exactly when the merge is refused
      and the packet is put on the wrong side of its neighbour. A prepend, which
      lowers the offset of an item, keeps the order. */
  lemma StepSorted(c: seq<UdpItem>, p: Mbuf, t: nat, l: Lengths)
    requires ItemsOk(KeyOf(p.hdr), c, l) && PacketOk(p, l) && Sorted(c)
    ensures Sorted(StepChain(c, p, t)) <==> (Refused(c, p) ==> RefusedInPlace(c, p))
  {
    if Merges(c, p) {
      MergeSorted(c, p, t, l);
    } else {
      DecideStops(c, p, 0);
      var s := StopAt(c, p, 0);
      InsertSorted(c, if Refused(c, p) && s == 0 then 1 else s, Fresh(p, t));
      if s < |c| {
        NeighborMeans(KeyOf(p.hdr), c[s], p, l);
      }
    }
  }

  lemma MergeSorted(c: seq<UdpItem>, p: Mbuf, t: nat, l: Lengths)
    requires ItemsOk(KeyOf(p.hdr), c, l) && PacketOk(p, l) && Sorted(c) && Merges(c, p)
    ensures Sorted(StepChain(c, p, t))
  {
    DecideStops(c, p, 0);
    var s := StopAt(c, p, 0);
    NeighborMeans(KeyOf(p.hdr), c[s], p, l);
    var c' := StepChain(c, p, t);
    assert forall i :: 0 <= i < |c| && i != s ==> c'[i] == c[i];
    assert c'[s].fragOffset <= c[s].fragOffset
      && (c'[s].fragOffset == c[s].fragOffset || c'[s].fragOffset == FragOffset(p.hdr));
  }

  lemma InsertSorted(c: seq<UdpItem>, at: nat, x: UdpItem)
    requires Sorted(c) && at <= |c|
    ensures Sorted(Insert(c, at, x)) <==>
      (at > 0 ==> c[at - 1].fragOffset <= x.fragOffset) && (at < |c| ==> x.fragOffset <= c[at].fragOffset)
  {
    var c' := Insert(c, at, x);
    assert forall i :: 0 <= i < |c'| ==> c'[i] == (if i < at then c[i] else if i == at then x else c[i - 1]);
    if Sorted(c') {
      assert at > 0 ==> c'[at - 1] == c[at - 1];
      assert at < |c| ==> c'[at + 1] == c[at];
    }
  }

  /** On a sorted chain the merge loop of a flush only appends, and keeps the order. */
  lemma {:induction false} FuseSorted(k: UdpKey, c: seq<UdpItem>, l: Lengths)
    requires c != [] && ItemsOk(k, c, l) && Sorted(c)
    ensures Sorted(Fuse(c)) && Fuse(c)[0].fragOffset == c[0].fragOffset
    ensures |c| > 1 ==> CheckNeighbor(c[0], c[1].fragOffset, DataLen(c[1].firstseg)) >= 0
    decreases |c|
  {
    if |c| > 1 {
      var p := c[1].firstseg;
      NeighborMeans(k, c[0], p, l);
      var cmp := CheckNeighbor(c[0], c[1].fragOffset, DataLen(p));
      if cmp != 0 && CanMerge(c[0], p, cmp) {
        MergeOk(k, c[0], p, c[1].isLastFrag, l);
        var c' := [Merge(c[0], p, cmp, c[1].fragOffset, c[1].isLastFrag)] + c[2..];
        assert forall i :: 1 <= i < |c'| ==> c'[i] == c[i + 1];
        FuseSorted(k, c', l);
      }
    }
  }

  lemma {:induction false} DrainSorted(k: UdpKey, c: seq<UdpItem>, ts: nat, room: nat, l: Lengths)
    requires ItemsOk(k, c, l) && Sorted(c)
    ensures Sorted(DrainChain(c, ts, room).rest)
    decreases |c|
  {
    if c != [] && room > 0 && c[0].startTime <= ts {
      FuseTail(k, c, l);
      DrainSorted(k, Fuse(c)[1..], ts, room - 1, l);
    }
  }

  lemma FuseTail(k: UdpKey, c: seq<UdpItem>, l: Lengths)
    requires c != [] && ItemsOk(k, c, l) && Sorted(c)
    ensures ItemsOk(k, Fuse(c)[1..], l) && Sorted(Fuse(c)[1..])
  {
    FuseOk(k, c, l);
    FuseSorted(k, c, l);
  }

  // ----- Disjoint fragments

  /** No two items overlap, in increasing order. */
  ghost predicate Separate(c: seq<UdpItem>) {
    forall i, j :: 0 <= i < j < |c| ==> End(c[i]) <= c[j].fragOffset
  }

  predicate Clear(it: UdpItem, p: Mbuf) {
    End(it) <= FragOffset(p.hdr) || FragOffset(p.hdr) + |Bytes(p)| <= it.fragOffset
  }

  predicate Disjoint(p: Mbuf, q: Mbuf) {
    || FragOffset(p.hdr) + |Bytes(p)| <= FragOffset(q.hdr)
    || FragOffset(q.hdr) + |Bytes(q)| <= FragOffset(p.hdr)
  }

  ghost predicate AllClear(c: seq<UdpItem>, p: Mbuf) {
    forall i :: 0 <= i < |c| ==> Clear(c[i], p)
  }

  lemma ReplaceSeparate(c: seq<UdpItem>, s: nat, x: UdpItem)
    requires Separate(c) && s < |c|
    requires forall i :: 0 <= i < s ==> End(c[i]) <= x.fragOffset
    requires forall i :: s < i < |c| ==> End(x) <= c[i].fragOffset
    ensures Separate(c[s := x])
  {}

  lemma InsertSeparate(c: seq<UdpItem>, s: nat, x: UdpItem)
    requires Separate(c) && s <= |c|
    requires forall i :: 0 <= i < s ==> End(c[i]) <= x.fragOffset
    requires forall i :: s <= i < |c| ==> End(x) <= c[i].fragOffset
    ensures Separate(Insert(c, s, x))
  {
    var c' := Insert(c, s, x);
    assert forall i :: 0 <= i < |c'| ==> c'[i] == (if i < s then c[i] else if i == s then x else c[i - 1]);
  }

  /** Where a fragment that overlaps nothing lies: behind the items before the stop of
      the scan, and in front of those after it. */
  lemma ScanSides(c: seq<UdpItem>, p: Mbuf, l: Lengths)
    requires ItemsOk(KeyOf(p.hdr), c, l) && PacketOk(p, l) && Separate(c) && AllClear(c, p)
    ensures var s := StopAt(c, p, 0); var off := FragOffset(p.hdr);
      && (forall i :: 0 <= i < s ==> End(c[i]) <= off)
      && (s < |c| ==> off + |Bytes(p)| <= c[s].fragOffset || off == End(c[s]))
      && (forall i :: s < i < |c| ==> off + |Bytes(p)| <= c[i].fragOffset)
      && (s < |c| && Cmp(c[s], p) == 0 ==> off + |Bytes(p)| <= c[s].fragOffset)
  {
    var s, off := StopAt(c, p, 0), FragOffset(p.hdr);
    forall i | 0 <= i < |c| ensures Clear(c[i], p) && |Bytes(c[i].firstseg)| > 0 {
      assert ItemOk(KeyOf(p.hdr), c[i], l);
    }
    if s < |c| {
      NeighborMeans(KeyOf(p.hdr), c[s], p, l);
      forall i | s < i < |c| ensures off + |Bytes(p)| <= c[i].fragOffset {
        assert Clear(c[i], p) && End(c[s]) <= c[i].fragOffset;
      }
    }
  }

  /** Storing a fragment that overlaps nothing keeps the items apart. */
  lemma StepSeparate(c: seq<UdpItem>, p: Mbuf, t: nat, l: Lengths)
    requires ItemsOk(KeyOf(p.hdr), c, l) && PacketOk(p, l)
    requires Separate(c) && AllClear(c, p) && !Refused(c, p)
    ensures Separate(StepChain(c, p, t))
  {
    DecideStops(c, p, 0);
    ScanSides(c, p, l);
    var s := StopAt(c, p, 0);
    if Merges(c, p) {
      NeighborMeans(KeyOf(p.hdr), c[s], p, l);
      MergeOk(KeyOf(p.hdr), c[s], p, !p.hdr.mf, l);
      ReplaceSeparate(c, s, StepChain(c, p, t)[s]);
    } else {
      InsertSeparate(c, s, Fresh(p, t));
    }
  }

  /** A fragment apart from the chain and from `p` is apart from the chain with `p`. */
  lemma StepClear(c: seq<UdpItem>, p: Mbuf, t: nat, l: Lengths, q: Mbuf)
    requires ItemsOk(KeyOf(p.hdr), c, l) && PacketOk(p, l) && PacketOk(q, l)
    requires AllClear(c, q) && Disjoint(p, q)
    ensures AllClear(StepChain(c, p, t), q)
  {
    DecideStops(c, p, 0);
    var s, c' := StopAt(c, p, 0), StepChain(c, p, t);
    if Merges(c, p) {
      MergeClear(KeyOf(p.hdr), c[s], p, l, q);
      forall i | 0 <= i < |c'| ensures Clear(c'[i], q) {
        assert i != s ==> c'[i] == c[i];
      }
    } else {
      InsertClear(c, if Refused(c, p) && s == 0 then 1 else s, Fresh(p, t), q);
    }
  }

  lemma InsertClear(c: seq<UdpItem>, at: nat, it: UdpItem, q: Mbuf)
    requires at <= |c| && AllClear(c, q) && Clear(it, q)
    ensures AllClear(Insert(c, at, it), q)
  {
    var c' := Insert(c, at, it);
    forall i | 0 <= i < |c'| ensures Clear(c'[i], q) {
      assert c'[i] == (if i < at then c[i] else if i == at then it else c[i - 1]);
    }
  }

  lemma MergeClear(k: UdpKey, it: UdpItem, p: Mbuf, l: Lengths, q: Mbuf)
    requires ItemOk(k, it, l) && PacketOk(p, l) && PacketOk(q, l) && KeyOf(p.hdr) == k
    requires Clear(it, q) && Disjoint(p, q) && Cmp(it, p) != 0 && CanMerge(it, p, Cmp(it, p))
    ensures Clear(Merge(it, p, Cmp(it, p), FragOffset(p.hdr), !p.hdr.mf), q)
  {
    NeighborMeans(k, it, p, l);
    MergeOk(k, it, p, !p.hdr.mf, l);
  }

  // ----- Size: merges are refused only for runs beyond 65535 bytes

  function Overhead(l: Lengths): nat { l.outerL3 + l.l2 + l.l3 }

  /** All positions from `lo` up to `hi` are among those that `cov` has. */
  ghost predicate Within(cov: nat -> bool, lo: nat, hi: nat) { forall x: nat :: lo <= x < hi ==> cov(x) }

  /** Every contiguous stretch of positions that `cov` has fits one IPv4 packet. */
  ghost predicate Fitting(cov: nat -> bool, l: Lengths) {
    forall lo: nat, hi: nat :: lo <= hi && Within(cov, lo, hi) ==> Overhead(l) + (hi - lo) <= MAX_IP_PKT_LENGTH
  }

  ghost predicate ChainWithin(cov: nat -> bool, c: seq<UdpItem>) {
    forall i :: 0 <= i < |c| ==> Within(cov, c[i].fragOffset, End(c[i]))
  }

  ghost predicate PacketWithin(cov: nat -> bool, p: Mbuf) {
    Within(cov, FragOffset(p.hdr), FragOffset(p.hdr) + |Bytes(p)|)
  }

  lemma JoinWithin(cov: nat -> bool, lo: nat, mid: nat, hi: nat)
    requires Within(cov, lo, mid) && Within(cov, mid, hi)
    ensures Within(cov, lo, hi)
  {}

  /** As long as every contiguous run of bytes fits one IPv4 packet, no merge is refused. */
  lemma NeverRefused(c: seq<UdpItem>, p: Mbuf, l: Lengths, cov: nat -> bool)
    requires ItemsOk(KeyOf(p.hdr), c, l) && PacketOk(p, l)
    requires ChainWithin(cov, c) && PacketWithin(cov, p) && Fitting(cov, l)
    ensures !Refused(c, p)
  {
    var s := StopAt(c, p, 0);
    if s < |c| {
      NeighborFits(KeyOf(p.hdr), c[s], p, l, cov);
    }
  }

  /** A neighbour is not refused. */
  lemma NeighborFits(k: UdpKey, it: UdpItem, p: Mbuf, l: Lengths, cov: nat -> bool)
    requires ItemOk(k, it, l) && PacketOk(p, l) && Fitting(cov, l)
    requires Within(cov, it.fragOffset, End(it)) && PacketWithin(cov, p)
    ensures Cmp(it, p) != 0 ==> CanMerge(it, p, Cmp(it, p))
  {
    NeighborMeans(k, it, p, l);
    var off := FragOffset(p.hdr);
    if Cmp(it, p) > 0 {
      JoinWithin(cov, it.fragOffset, off, off + |Bytes(p)|);
      ShortFits(it.firstseg, p, p, l);
    } else if Cmp(it, p) < 0 {
      JoinWithin(cov, off, it.fragOffset, End(it));
      ShortFits(p, it.firstseg, p, l);
    }
  }

  lemma ShortFits(head: Mbuf, tail: Mbuf, p: Mbuf, l: Lengths)
    requires PacketOk(head, l) && PacketOk(tail, l) && PacketOk(p, l)
    requires Overhead(l) + |Bytes(head)| + |Bytes(tail)| <= MAX_IP_PKT_LENGTH
    ensures MergeFits(head, tail, p)
  {}

  /** Storing a packet keeps the chain among the positions. */
  lemma StepWithin(c: seq<UdpItem>, p: Mbuf, t: nat, l: Lengths, cov: nat -> bool)
    requires ItemsOk(KeyOf(p.hdr), c, l) && PacketOk(p, l) && ChainWithin(cov, c) && PacketWithin(cov, p)
    ensures ChainWithin(cov, StepChain(c, p, t))
  {
    DecideStops(c, p, 0);
    var s := StopAt(c, p, 0);
    if Merges(c, p) {
      MergeWithin(KeyOf(p.hdr), c[s], p, !p.hdr.mf, l, cov);
      ReplaceWithin(c, s, StepChain(c, p, t)[s], cov);
    } else {
      InsertWithin(c, if Refused(c, p) && s == 0 then 1 else s, Fresh(p, t), cov);
    }
  }

  lemma ReplaceWithin(c: seq<UdpItem>, s: nat, x: UdpItem, cov: nat -> bool)
    requires s < |c| && ChainWithin(cov, c) && Within(cov, x.fragOffset, End(x))
    ensures ChainWithin(cov, c[s := x])
  {}

  lemma InsertWithin(c: seq<UdpItem>, at: nat, x: UdpItem, cov: nat -> bool)
    requires at <= |c| && ChainWithin(cov, c) && Within(cov, x.fragOffset, End(x))
    ensures ChainWithin(cov, Insert(c, at, x))
  {
    var c' := Insert(c, at, x);
    assert forall i :: 0 <= i < |c'| ==> c'[i] == (if i < at then c[i] else if i == at then x else c[i - 1]);
  }

  lemma MergeWithin(k: UdpKey, it: UdpItem, p: Mbuf, last: bool, l: Lengths, cov: nat -> bool)
    requires ItemOk(k, it, l) && PacketOk(p, l) && KeyOf(p.hdr) == k && (!p.hdr.mf ==> last)
    requires Within(cov, it.fragOffset, End(it)) && PacketWithin(cov, p)
    requires Cmp(it, p) != 0 && CanMerge(it, p, Cmp(it, p))
    ensures var m := Merge(it, p, Cmp(it, p), FragOffset(p.hdr), last); Within(cov, m.fragOffset, End(m))
  {
    NeighborMeans(k, it, p, l);
    MergeOk(k, it, p, last, l);
    var off := FragOffset(p.hdr);
    if Cmp(it, p) > 0 {
      JoinWithin(cov, it.fragOffset, off, off + |Bytes(p)|);
    } else {
      JoinWithin(cov, off, it.fragOffset, End(it));
    }
  }

  lemma StepConserves(c: seq<UdpItem>, p: Mbuf, t: nat, l: Lengths)
    requires ItemsOk(KeyOf(p.hdr), c, l) && PacketOk(p, l)
    ensures var k := KeyOf(p.hdr);
      InChain(k, StepChain(c, p, t), ItemUnits) == InChain(k, c, ItemUnits) + PacketUnits(p)
  {
    var k := KeyOf(p.hdr);
    StepOk(c, p, t, l);
    match Decide(c, p, 0)
    case MergeAt(at, m) => MergeInChain(k, c, at, m, Fresh(p, t), ItemUnits);
    case InsertAt(at) => InChainInsert(k, c, at, Fresh(p, t), ItemUnits);
  }
}
