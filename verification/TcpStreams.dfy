/**
  Items as runs of the packets they were merged from: in sequence order, and for
  tunnelled packets with consecutive outer IPv4 identifiers. The inner identifier is
  kept in order by appending only.
 */
module TcpStreams {
  import opened Basics
  import opened Packets
  import opened Parts
  import opened Tcp
  import opened TcpLaws

  function JoinBytes(parts: seq<Mbuf>, tunnel: bool): seq<byte> {
    if parts == [] then [] else Bytes(parts[0], tunnel) + JoinBytes(parts[1..], tunnel)
  }

  /** Packet `q` starts at the sequence number where packet `p` ends. */
  predicate Follows(p: Mbuf, q: Mbuf, tunnel: bool) {
    q.hdr.sentSeq == Wrap(p.hdr.sentSeq + |Bytes(p, tunnel)|)
  }

  ghost predicate Consecutive(parts: seq<Mbuf>, tunnel: bool) {
    forall i :: 0 < i < |parts| ==> Follows(parts[i - 1], parts[i], tunnel)
  }

  /** The outer identifiers of the packets are the consecutive integers up to the one
      the item keeps; none of them wraps. */
  ghost predicate OuterRun(it: TcpItem, parts: seq<Mbuf>, tunnel: bool) {
    tunnel && !it.outerIsAtomic ==>
      forall i :: 0 <= i < |parts| ==> OuterIpId(parts[i].hdr) == it.outerIpId - |parts| + 1 + i
  }

  ghost predicate AckOnly(parts: seq<Mbuf>) { forall i :: 0 <= i < |parts| ==> parts[i].hdr.tcpFlags == ACK_FLAG }

  /** The payload of an item: that of its packets, byte for byte unless flags were set. */
  ghost predicate Carries(it: TcpItem, parts: seq<Mbuf>, tunnel: bool) {
    && it.firstseg.segs == JoinSegs(parts) && |Bytes(it.firstseg, tunnel)| == |JoinBytes(parts, tunnel)|
    && (AckOnly(parts) ==> Bytes(it.firstseg, tunnel) == JoinBytes(parts, tunnel))
  }

  /** The item is what merging `parts`, in this order, gives. */
  ghost predicate Built(k: TcpKey, it: TcpItem, parts: seq<Mbuf>, tunnel: bool) {
    && parts != [] && it.nbMerged == |parts| && it.firstseg.hdr == parts[0].hdr
    && it.sentSeq == parts[0].hdr.sentSeq && Consecutive(parts, tunnel) && Carries(it, parts, tunnel)
    && (forall i :: 0 <= i < |parts| ==> Alike(k, it, parts[i], tunnel))
    && OuterRun(it, parts, tunnel)
  }

  /** Packets of one flow with the same Don't Fragment bits. */
  predicate Alike(k: TcpKey, it: TcpItem, p: Mbuf, tunnel: bool) {
    KeyOf(p.hdr, tunnel) == k && p.hdr.df == it.isAtomic && (tunnel ==> p.hdr.outerDf == it.outerIsAtomic)
  }

  lemma {:induction false} JoinBytesConcat(a: seq<Mbuf>, b: seq<Mbuf>, tunnel: bool)
    ensures JoinBytes(a + b, tunnel) == JoinBytes(a, tunnel) + JoinBytes(b, tunnel)
  {
    if a == [] {
      assert a + b == b;
    } else {
      assert (a + b)[1..] == a[1..] + b;
      JoinBytesConcat(a[1..], b, tunnel);
    }
  }

  /** The sequence number behind a run of packets. */
  lemma {:induction false} RunEnd(parts: seq<Mbuf>, tunnel: bool)
    requires parts != [] && Consecutive(parts, tunnel)
    ensures var z := parts[|parts| - 1];
      Wrap(parts[0].hdr.sentSeq + |JoinBytes(parts, tunnel)|) == Wrap(z.hdr.sentSeq + |Bytes(z, tunnel)|)
  {
    if |parts| > 1 {
      var rest := parts[1..];
      forall i | 0 < i < |rest| ensures Follows(rest[i - 1], rest[i], tunnel) {
        assert rest[i] == parts[i + 1] && rest[i - 1] == parts[i];
      }
      RunEnd(rest, tunnel);
      assert Follows(parts[0], parts[1], tunnel);
      WrapStep(parts[0].hdr.sentSeq, |Bytes(parts[0], tunnel)|, |JoinBytes(rest, tunnel)|, parts[1].hdr.sentSeq);
    } else {
      assert parts[1..] == [];
    }
  }

  lemma WrapStep(a: int, n: int, m: int, b: int)
    requires b == Wrap(a + n)
    ensures Wrap(b + m) == Wrap(a + (n + m))
  {
    WrapAdd(b, a + n, m);
  }

  lemma FreshBuilt(p: Mbuf, t: nat, tunnel: bool)
    ensures Built(KeyOf(p.hdr, tunnel), Fresh(p, t, tunnel), [p], tunnel)
  {
    assert [p][1..] == [];
  }

  lemma AppendRuns(m: TcpItem, it: TcpItem, parts: seq<Mbuf>, p: Mbuf, tunnel: bool)
    requires parts != [] && Consecutive(parts, tunnel) && OuterRun(it, parts, tunnel)
    requires p.hdr.sentSeq == Wrap(parts[0].hdr.sentSeq + |JoinBytes(parts, tunnel)|)
    requires m.outerIsAtomic == it.outerIsAtomic
    requires tunnel && !it.outerIsAtomic ==> OuterIpId(p.hdr) == it.outerIpId + 1 == m.outerIpId
    ensures Consecutive(parts + [p], tunnel) && OuterRun(m, parts + [p], tunnel)
  {
    RunEnd(parts, tunnel);
    ConsecutiveMore(parts, p, tunnel);
    var ps := parts + [p];
    assert forall i :: 0 <= i < |ps| ==> ps[i] == if i < |parts| then parts[i] else p;
  }

  lemma ConsecutiveMore(parts: seq<Mbuf>, p: Mbuf, tunnel: bool)
    requires parts != [] && Consecutive(parts, tunnel) && Follows(parts[|parts| - 1], p, tunnel)
    ensures Consecutive(parts + [p], tunnel)
  {
    var ps := parts + [p];
    forall i | 0 < i < |ps| ensures Follows(ps[i - 1], ps[i], tunnel) {
      assert i < |parts| ==> Follows(parts[i - 1], parts[i], tunnel);
    }
  }

  lemma PrependRuns(m: TcpItem, it: TcpItem, parts: seq<Mbuf>, p: Mbuf, tunnel: bool)
    requires parts != [] && Consecutive(parts, tunnel) && OuterRun(it, parts, tunnel) && Follows(p, parts[0], tunnel)
    requires m.outerIsAtomic == it.outerIsAtomic && m.outerIpId == it.outerIpId
    requires tunnel && !it.outerIsAtomic ==> OuterIpId(p.hdr) + |parts| == it.outerIpId
    ensures Consecutive([p] + parts, tunnel) && OuterRun(m, [p] + parts, tunnel)
  {
    var ps := [p] + parts;
    assert forall i :: 0 < i < |ps| ==> ps[i] == parts[i - 1];
    forall i | 0 < i < |ps| ensures Follows(ps[i - 1], ps[i], tunnel) {
      assert i > 1 ==> Follows(parts[i - 2], parts[i - 1], tunnel);
    }
  }

  lemma JoinOne(parts: seq<Mbuf>, p: Mbuf, tunnel: bool)
    ensures JoinBytes(parts + [p], tunnel) == JoinBytes(parts, tunnel) + Bytes(p, tunnel)
    ensures JoinSegs(parts + [p]) == JoinSegs(parts) + p.segs
    ensures JoinBytes([p] + parts, tunnel) == Bytes(p, tunnel) + JoinBytes(parts, tunnel)
    ensures JoinSegs([p] + parts) == p.segs + JoinSegs(parts)
  {
    assert [p][1..] == [] && JoinBytes([p], tunnel) == Bytes(p, tunnel) && JoinSegs([p]) == p.segs;
    JoinBytesConcat(parts, [p], tunnel);
    JoinBytesConcat([p], parts, tunnel);
    JoinSegsConcat(parts, [p]);
    JoinSegsConcat([p], parts);
  }

  lemma MergeCarries(k: TcpKey, it: TcpItem, parts: seq<Mbuf>, p: Mbuf, l: Lengths, tunnel: bool)
    requires ItemOk(k, it, l, tunnel) && Carries(it, parts, tunnel)
    requires PacketOk(p, l, tunnel) && KeyOf(p.hdr, tunnel) == k
    requires var cmp := Check(it, p, tunnel); cmp != 0 && CanMerge(it, p, cmp, tunnel)
    ensures var cmp := Check(it, p, tunnel); Carries(Merge(it, p, cmp, tunnel), Joined(parts, [p], cmp), tunnel)
  {
    var cmp := Check(it, p, tunnel);
    var head := if cmp > 0 then it.firstseg else p;
    var ps := Joined(parts, [p], cmp);
    MergeOk(k, it, p, l, tunnel);
    FlaggedBytes(p, cmp, head, l, tunnel);
    JoinOne(parts, p, tunnel);
    assert |Bytes(Flagged(p, cmp, head, tunnel), tunnel)| == |Bytes(p, tunnel)|;
    JoinedAckOnly(parts, p, cmp);
  }

  lemma JoinedAckOnly(parts: seq<Mbuf>, p: Mbuf, cmp: int)
    ensures AckOnly(Joined(parts, [p], cmp)) ==> AckOnly(parts) && p.hdr.tcpFlags == ACK_FLAG
  {
    var ps := Joined(parts, [p], cmp);
    assert ps[if cmp > 0 then |parts| else 0] == p;
    assert forall i :: 0 <= i < |parts| ==> parts[i] == ps[if cmp > 0 then i else i + 1];
  }

  lemma MergeAlike(k: TcpKey, it: TcpItem, m: TcpItem, parts: seq<Mbuf>, p: Mbuf, cmp: int, tunnel: bool)
    requires m.isAtomic == it.isAtomic && m.outerIsAtomic == it.outerIsAtomic && Alike(k, it, p, tunnel)
    requires forall i :: 0 <= i < |parts| ==> Alike(k, it, parts[i], tunnel)
    ensures var ps := Joined(parts, [p], cmp); forall i :: 0 <= i < |ps| ==> Alike(k, m, ps[i], tunnel)
  {
    var ps := Joined(parts, [p], cmp);
    forall i | 0 <= i < |ps| ensures Alike(k, m, ps[i], tunnel) {
      assert ps[i] == p || ps[i] == parts[if cmp > 0 then i else i - 1];
    }
  }

  /** What the neighbour test says about the identifiers. */
  lemma CheckIds(it: TcpItem, p: Mbuf, tunnel: bool)
    requires tunnel && Check(it, p, tunnel) != 0 && !it.outerIsAtomic
    ensures OuterIpId(p.hdr) == if Check(it, p, tunnel) > 0 then it.outerIpId + 1 else it.outerIpId - it.nbMerged
  {}

  lemma MergeRuns(k: TcpKey, it: TcpItem, parts: seq<Mbuf>, p: Mbuf, l: Lengths, tunnel: bool)
    requires ItemOk(k, it, l, tunnel) && Built(k, it, parts, tunnel) && PacketOk(p, l, tunnel)
    requires Check(it, p, tunnel) != 0
    ensures var cmp := Check(it, p, tunnel); var ps := Joined(parts, [p], cmp);
      Consecutive(ps, tunnel) && OuterRun(Merge(it, p, cmp, tunnel), ps, tunnel)
  {
    var cmp := Check(it, p, tunnel);
    MergeIds(it, p, cmp, tunnel);
    if tunnel && !it.outerIsAtomic {
      CheckIds(it, p, tunnel);
    }
    if cmp > 0 {
      AppendFollows(k, it, parts, p, l, tunnel);
      AppendRuns(Merge(it, p, cmp, tunnel), it, parts, p, tunnel);
    } else {
      PrependFollows(k, it, parts, p, l, tunnel);
      PrependRuns(Merge(it, p, cmp, tunnel), it, parts, p, tunnel);
    }
  }

  lemma AppendFollows(k: TcpKey, it: TcpItem, parts: seq<Mbuf>, p: Mbuf, l: Lengths, tunnel: bool)
    requires ItemOk(k, it, l, tunnel) && Built(k, it, parts, tunnel) && PacketOk(p, l, tunnel)
    requires Check(it, p, tunnel) > 0
    ensures p.hdr.sentSeq == Wrap(parts[0].hdr.sentSeq + |JoinBytes(parts, tunnel)|)
  {
    CheckMeans(k, it, p, l, tunnel);
  }

  lemma PrependFollows(k: TcpKey, it: TcpItem, parts: seq<Mbuf>, p: Mbuf, l: Lengths, tunnel: bool)
    requires ItemOk(k, it, l, tunnel) && Built(k, it, parts, tunnel) && PacketOk(p, l, tunnel)
    requires Check(it, p, tunnel) < 0
    ensures Follows(p, parts[0], tunnel)
  {
    CheckMeans(k, it, p, l, tunnel);
  }

  lemma MergeIds(it: TcpItem, p: Mbuf, cmp: int, tunnel: bool)
    ensures var m := Merge(it, p, cmp, tunnel);
      && m.outerIsAtomic == it.outerIsAtomic
      && m.outerIpId == if cmp > 0 && tunnel then OuterIpId(p.hdr) else it.outerIpId
  {}

  /** Appending or prepending a packet extends the run at that end. */
  lemma MergeBuilt(k: TcpKey, it: TcpItem, parts: seq<Mbuf>, p: Mbuf, l: Lengths, tunnel: bool)
    requires ItemOk(k, it, l, tunnel) && Built(k, it, parts, tunnel)
    requires PacketOk(p, l, tunnel) && KeyOf(p.hdr, tunnel) == k
    requires var cmp := Check(it, p, tunnel); cmp != 0 && CanMerge(it, p, cmp, tunnel)
    ensures var cmp := Check(it, p, tunnel); Built(k, Merge(it, p, cmp, tunnel), Joined(parts, [p], cmp), tunnel)
  {
    var cmp := Check(it, p, tunnel);
    MergeOk(k, it, p, l, tunnel);
    CheckMeans(k, it, p, l, tunnel);
    MergeRuns(k, it, parts, p, l, tunnel);
    MergeCarries(k, it, parts, p, l, tunnel);
    MergeAlike(k, it, Merge(it, p, cmp, tunnel), parts, p, cmp, tunnel);
    MergeHeader(it, p, cmp, tunnel);
  }

  // ----- The inner identifier

  /** What the neighbour test takes the item's inner identifier for: that of its last packet. */
  ghost predicate InnerRun(it: TcpItem, parts: seq<Mbuf>) {
    !it.isAtomic ==> forall i :: 0 <= i < |parts| ==> IpId(parts[i].hdr) == it.ipId - |parts| + 1 + i
  }

  /** Appending keeps the inner identifiers consecutive. Prepending breaks the record
      exactly for items whose identifier matters: the item then keeps the smallest
      identifier where the largest is expected. */
  lemma MergeInner(k: TcpKey, it: TcpItem, parts: seq<Mbuf>, p: Mbuf, l: Lengths)
    requires ItemOk(k, it, l, true) && Built(k, it, parts, true) && InnerRun(it, parts) && PacketOk(p, l, true)
    requires var cmp := Check(it, p, true); cmp != 0
    ensures var cmp := Check(it, p, true); var m := Merge(it, p, cmp, true);
      InnerRun(m, if cmp > 0 then parts + [p] else [p] + parts) <==> cmp > 0 || it.isAtomic
  {
    CheckMeans(k, it, p, l, true);
    var cmp := Check(it, p, true);
    var m := Merge(it, p, cmp, true);
    if cmp < 0 && !it.isAtomic {
      assert IpId(([p] + parts)[0].hdr) == m.ipId;
    } else if !it.isAtomic {
      assert forall i :: 0 <= i < |parts| ==> (parts + [p])[i] == parts[i];
    }
  }

  /** After a prepend, the packet that really continues the run is not recognised. */
  lemma SuccessorLost(k: TcpKey, it: TcpItem, parts: seq<Mbuf>, p: Mbuf, q: Mbuf, l: Lengths)
    requires ItemOk(k, it, l, true) && Built(k, it, parts, true) && InnerRun(it, parts)
    requires PacketOk(p, l, true) && PacketOk(q, l, true) && !it.isAtomic && !q.hdr.df
    requires Check(it, p, true) < 0 && CanMerge(it, p, -1, true)
    requires IpId(q.hdr) == IpId(parts[|parts| - 1].hdr) + 1
    ensures Check(Merge(it, p, -1, true), q, true) == 0
  {
    CheckMeans(k, it, p, l, true);
  }
}
