/**
  What reassembling TCP/IPv4 packets keeps: each payload byte stays at its sequence
  number, each buffer has one owner, and only packets of one flow share an item.
 */
module TcpLaws {
  import opened Basics
  import opened Packets
  import opened FlowTable
  import opened FlushLoop
  import opened Tcp

  function Bytes(m: Mbuf, tunnel: bool): seq<byte> { Payload(m, HdrLen(m.lens, tunnel)) }

  /** Which packets share a flow: those of one TCP connection with one acknowledgement
      number, and for tunnelled packets of one tunnel, outer ports included. */
  lemma SameFlow(a: Header, b: Header, tunnel: bool)
    ensures KeyOf(a, tunnel) == KeyOf(b, tunnel) <==>
      var x, y := a.addr, b.addr;
      && x.ethSrc == y.ethSrc && x.ethDst == y.ethDst && x.ipSrc == y.ipSrc && x.ipDst == y.ipDst
      && x.srcPort == y.srcPort && x.dstPort == y.dstPort && x.recvAck == y.recvAck
      && (tunnel ==>
        && x.tunnel == y.tunnel && x.outerEthSrc == y.outerEthSrc && x.outerEthDst == y.outerEthDst
        && x.outerIpSrc == y.outerIpSrc && x.outerIpDst == y.outerIpDst
        && x.outerSrcPort == y.outerSrcPort && x.outerDstPort == y.outerDstPort)
  {}

  /** The payload bytes of a packet, labelled with flow and sequence number by its own header. */
  ghost function PacketUnits(m: Mbuf, tunnel: bool): multiset<Unit<TcpKey>> {
    Units(KeyOf(m.hdr, tunnel), m.hdr.sentSeq, Bytes(m, tunnel))
  }

  function L2Len(l: Lengths, tunnel: bool): nat { if tunnel then l.outerL2 else l.l2 }

  /** A packet the code can handle: its TCP header is long enough, it has payload, its IPv4
      length fits 16 bits, and all packets of a flow have the header lengths `l`, up to
      the TCP header. */
  predicate PacketOk(m: Mbuf, l: Lengths, tunnel: bool) {
    && SameUpToL4(m.lens, l) && m.lens.l4 >= 20 && (tunnel ==> L2Offset(l, true) > 0)
    && HdrLen(m.lens, tunnel) < |m.data| && |m.data| - L2Len(l, tunnel) <= MAX_IP_PKT_LENGTH
  }

  /** What holds of every stored item of flow `k`. */
  predicate ItemOk(k: TcpKey, it: TcpItem, l: Lengths, tunnel: bool) {
    && PacketOk(it.firstseg, l, tunnel) && KeyOf(it.firstseg.hdr, tunnel) == k
    && it.sentSeq == it.firstseg.hdr.sentSeq
    && it.isAtomic == it.firstseg.hdr.df && (tunnel ==> it.outerIsAtomic == it.firstseg.hdr.outerDf)
    && 1 <= it.nbMerged <= |Bytes(it.firstseg, tunnel)|
  }

  ghost function ItemBuffers(k: TcpKey, it: TcpItem): multiset<nat> { multiset(it.firstseg.segs) }

  lemma FreshOk(p: Mbuf, t: nat, l: Lengths, tunnel: bool)
    requires PacketOk(p, l, tunnel)
    ensures ItemOk(KeyOf(p.hdr, tunnel), Fresh(p, t, tunnel), l, tunnel)
  {}

  /** A positive test means that the packet continues the item byte for byte, a negative
      one that the item continues the packet; either way both may or may not be
      fragmented alike. */
  lemma CheckMeans(k: TcpKey, it: TcpItem, p: Mbuf, l: Lengths, tunnel: bool)
    requires ItemOk(k, it, l, tunnel) && PacketOk(p, l, tunnel)
    ensures var cmp := Check(it, p, tunnel);
      && (cmp == 0 || cmp == 1 || cmp == -1)
      && (cmp > 0 ==> p.hdr.sentSeq == Wrap(it.sentSeq + |Bytes(it.firstseg, tunnel)|))
      && (cmp < 0 ==> it.sentSeq == Wrap(p.hdr.sentSeq + |Bytes(p, tunnel)|))
      && (cmp != 0 ==> p.lens == it.firstseg.lens)
      && (cmp != 0 ==> p.hdr.df == it.isAtomic && (tunnel ==> p.hdr.outerDf == it.outerIsAtomic))
  {
    LengthOk(it.firstseg, l, tunnel);
    LengthOk(p, l, tunnel);
  }

  /** The payload length is not truncated. */
  lemma LengthOk(m: Mbuf, l: Lengths, tunnel: bool)
    requires PacketOk(m, l, tunnel)
    ensures DataLen(m, tunnel) == |Bytes(m, tunnel)|
  {}

  /** The flags of an appended packet are written into its payload. */
  predicate Touches(p: Mbuf, cmp: int, tunnel: bool) {
    var at := TcpStart(p.lens, tunnel) + 13;
    && cmp > 0 && p.hdr.tcpFlags != ACK_FLAG && at < |Bytes(p, tunnel)|
    && Bytes(p, tunnel)[at] | p.hdr.tcpFlags != Bytes(p, tunnel)[at]
  }

  /** The payload of a packet as a merge leaves it. */
  lemma FlaggedBytes(p: Mbuf, cmp: int, head: Mbuf, l: Lengths, tunnel: bool)
    requires PacketOk(p, l, tunnel) && head.lens == p.lens
    ensures var q := Flagged(p, cmp, head, tunnel);
      && q == p.(data := q.data) && |q.data| == |p.data|
        && (Bytes(q, tunnel) == Bytes(p, tunnel) <==> !Touches(p, cmp, tunnel))
  {
    if p.hdr.tcpFlags != ACK_FLAG {
      var h, at := HdrLen(p.lens, tunnel), TcpStart(p.lens, tunnel) + 13;
      OrBehind(p.data, h, at, p.hdr.tcpFlags);
      if cmp > 0 {
        assert Bytes(Flagged(p, cmp, head, tunnel), tunnel) == OrFlags(Bytes(p, tunnel), at, p.hdr.tcpFlags);
        OrChanges(Bytes(p, tunnel), at, p.hdr.tcpFlags);
      }
    }
  }

  lemma OrBehind(data: seq<byte>, h: nat, at: nat, flags: byte)
    requires h <= |data|
    ensures OrFlags(data, h + at, flags)[h..] == OrFlags(data[h..], at, flags)
    ensures at < h ==> OrFlags(data, at, flags)[h..] == data[h..]
  {}

  lemma OrChanges(s: seq<byte>, at: nat, flags: byte)
    ensures OrFlags(s, at, flags) == s <==> !(at < |s| && s[at] | flags != s[at])
  {
    if at < |s| {
      assert OrFlags(s, at, flags)[at] == s[at] | flags;
    }
  }

  /** Chaining two packets whose bytes are consecutive. */
  lemma ChainOk(head: Mbuf, tail: Mbuf, p: Mbuf, l: Lengths, tunnel: bool)
    requires PacketOk(head, l, tunnel) && PacketOk(tail, l, tunnel) && head.lens == tail.lens == p.lens
    requires MergeFits(head, tail, p, tunnel)
    ensures var m := Chain(head, tail, MergeHdr(head, p, tunnel));
      && PacketOk(m, l, tunnel) && m.hdr == head.hdr && Bytes(m, tunnel) == Bytes(head, tunnel) + Bytes(tail, tunnel)
      && multiset(m.segs) == multiset(head.segs) + multiset(tail.segs)
  {
    ChainPayload(head, tail, MergeHdr(head, p, tunnel), MergeHdr(head, p, tunnel));
  }

  lemma ChainUnits(k: TcpKey, m: Mbuf, head: Mbuf, tail: Mbuf, tunnel: bool)
    requires KeyOf(m.hdr, tunnel) == KeyOf(head.hdr, tunnel) == KeyOf(tail.hdr, tunnel) == k
    requires m.hdr.sentSeq == head.hdr.sentSeq && tail.hdr.sentSeq == Wrap(head.hdr.sentSeq + |Bytes(head, tunnel)|)
    requires Bytes(m, tunnel) == Bytes(head, tunnel) + Bytes(tail, tunnel)
    ensures PacketUnits(m, tunnel) == PacketUnits(head, tunnel) + PacketUnits(tail, tunnel)
  {
    var s := head.hdr.sentSeq;
    WrapTwice(s + |Bytes(head, tunnel)|);
    UnitsConcat(k, s, Bytes(head, tunnel), Bytes(tail, tunnel));
    UnitsWrap(k, tail.hdr.sentSeq, s + |Bytes(head, tunnel)|, Bytes(tail, tunnel));
  }

  /** A merge of neighbours: bytes are concatenated in sequence order, unless flags are
      written into them. */
  lemma MergeOk(k: TcpKey, it: TcpItem, p: Mbuf, l: Lengths, tunnel: bool)
    requires ItemOk(k, it, l, tunnel) && PacketOk(p, l, tunnel) && KeyOf(p.hdr, tunnel) == k
    requires var cmp := Check(it, p, tunnel); cmp != 0 && CanMerge(it, p, cmp, tunnel)
    ensures var cmp := Check(it, p, tunnel); var m := Merge(it, p, cmp, tunnel);
      && ItemOk(k, m, l, tunnel) && m.startTime == it.startTime && m.nbMerged == it.nbMerged + 1
      && ItemBuffers(k, m) == ItemBuffers(k, it) + multiset(p.segs)
      && var q := Flagged(p, cmp, if cmp > 0 then it.firstseg else p, tunnel);
        Bytes(m.firstseg, tunnel) ==
          if cmp > 0 then Bytes(it.firstseg, tunnel) + Bytes(q, tunnel)
          else Bytes(q, tunnel) + Bytes(it.firstseg, tunnel)
  {
    CheckMeans(k, it, p, l, tunnel);
    if Check(it, p, tunnel) > 0 {
      AppendOk(k, it, p, l, tunnel);
    } else {
      PrependOk(k, it, p, l, tunnel);
    }
  }

  /** Packets with the same headers, fragmented alike or not at all. */
  predicate Matching(it: TcpItem, p: Mbuf, tunnel: bool) {
    p.lens == it.firstseg.lens && p.hdr.df == it.isAtomic && (tunnel ==> p.hdr.outerDf == it.outerIsAtomic)
  }

  /** What a merge makes of an item and a packet whose bytes are `bytes` one after the other. */
  ghost predicate Merged(k: TcpKey, it: TcpItem, p: Mbuf, l: Lengths, tunnel: bool, m: TcpItem, bytes: seq<byte>) {
    && ItemOk(k, m, l, tunnel) && m.startTime == it.startTime && m.nbMerged == it.nbMerged + 1
    && ItemBuffers(k, m) == ItemBuffers(k, it) + multiset(p.segs)
    && Bytes(m.firstseg, tunnel) == bytes
  }

  lemma AppendOk(k: TcpKey, it: TcpItem, p: Mbuf, l: Lengths, tunnel: bool)
    requires ItemOk(k, it, l, tunnel) && PacketOk(p, l, tunnel) && KeyOf(p.hdr, tunnel) == k
    requires Matching(it, p, tunnel) && CanMerge(it, p, 1, tunnel)
    ensures Merged(k, it, p, l, tunnel, Merge(it, p, 1, tunnel),
      Bytes(it.firstseg, tunnel) + Bytes(Flagged(p, 1, it.firstseg, tunnel), tunnel))
  {
    var q := Flagged(p, 1, it.firstseg, tunnel);
    FlaggedBytes(p, 1, it.firstseg, l, tunnel);
    assert PacketOk(q, l, tunnel) && q.lens == p.lens && q.segs == p.segs;
    ChainOk(it.firstseg, q, p, l, tunnel);
  }

  lemma PrependOk(k: TcpKey, it: TcpItem, p: Mbuf, l: Lengths, tunnel: bool)
    requires ItemOk(k, it, l, tunnel) && PacketOk(p, l, tunnel) && KeyOf(p.hdr, tunnel) == k
    requires Matching(it, p, tunnel) && CanMerge(it, p, -1, tunnel)
    ensures Merged(k, it, p, l, tunnel, Merge(it, p, -1, tunnel),
      Bytes(Flagged(p, -1, p, tunnel), tunnel) + Bytes(it.firstseg, tunnel))
  {
    FlaggedBytes(p, -1, p, l, tunnel);
    ChainOk(Flagged(p, -1, p, tunnel), it.firstseg, p, l, tunnel);
  }

  /** Stream preservation of one merge: no byte lost, changed or moved to another
      sequence number, exactly unless flags are written into the payload. */
  lemma MergeUnits(k: TcpKey, it: TcpItem, p: Mbuf, l: Lengths, tunnel: bool)
    requires ItemOk(k, it, l, tunnel) && PacketOk(p, l, tunnel) && KeyOf(p.hdr, tunnel) == k
    requires var cmp := Check(it, p, tunnel); cmp != 0 && CanMerge(it, p, cmp, tunnel)
    ensures var cmp := Check(it, p, tunnel); var m := Merge(it, p, cmp, tunnel);
      PacketUnits(m.firstseg, tunnel) == PacketUnits(it.firstseg, tunnel) + PacketUnits(p, tunnel) <==>
      !Touches(p, cmp, tunnel)
  {
    CheckMeans(k, it, p, l, tunnel);
    var cmp := Check(it, p, tunnel);
    var head := if cmp > 0 then it.firstseg else p;
    MergedUnits(k, it, p, l, tunnel);
    FlaggedUnits(p, cmp, head, l, tunnel);
    Cancel(PacketUnits(it.firstseg, tunnel), PacketUnits(Flagged(p, cmp, head, tunnel), tunnel),
      PacketUnits(p, tunnel));
  }

  /** The header of an item is that of its first packet. */
  lemma MergeHeader(it: TcpItem, p: Mbuf, cmp: int, tunnel: bool)
    ensures var m := Merge(it, p, cmp, tunnel);
      && m.firstseg.hdr == (if cmp > 0 then it.firstseg.hdr else p.hdr)
      && m.sentSeq == (if cmp > 0 then it.sentSeq else p.hdr.sentSeq)
  {}

  predicate HasFlags(m: Mbuf, flags: byte) { m.hdr.tcpFlags & flags == flags }

  /** Which flags the header of a merged packet has: all of the packet's exactly if it was
      prepended or the item had them already, and all of the item's exactly if the packet
      was appended or has them. */
  lemma MergeFlags(it: TcpItem, p: Mbuf, cmp: int, tunnel: bool)
    requires cmp != 0
    ensures var m := Merge(it, p, cmp, tunnel).firstseg;
      && (HasFlags(m, p.hdr.tcpFlags) <==> cmp < 0 || HasFlags(it.firstseg, p.hdr.tcpFlags))
      && (HasFlags(m, it.firstseg.hdr.tcpFlags) <==> cmp > 0 || HasFlags(p, it.firstseg.hdr.tcpFlags))
  {
    MergeHeader(it, p, cmp, tunnel);
    AllOwnFlags(if cmp > 0 then it.firstseg else p);
  }

  lemma AllOwnFlags(m: Mbuf)
    ensures HasFlags(m, m.hdr.tcpFlags)
  {}

  /** A merge adds the bytes of the packet with its flags set. */
  lemma MergedUnits(k: TcpKey, it: TcpItem, p: Mbuf, l: Lengths, tunnel: bool)
    requires ItemOk(k, it, l, tunnel) && PacketOk(p, l, tunnel) && KeyOf(p.hdr, tunnel) == k
    requires var cmp := Check(it, p, tunnel); cmp != 0 && CanMerge(it, p, cmp, tunnel)
    ensures var cmp := Check(it, p, tunnel);
      PacketUnits(Merge(it, p, cmp, tunnel).firstseg, tunnel)
        == PacketUnits(it.firstseg, tunnel)
          + PacketUnits(Flagged(p, cmp, if cmp > 0 then it.firstseg else p, tunnel), tunnel)
  {
    CheckMeans(k, it, p, l, tunnel);
    if Check(it, p, tunnel) > 0 {
      AppendUnits(k, it, p, l, tunnel);
    } else {
      PrependUnits(k, it, p, l, tunnel);
    }
  }

  lemma AppendUnits(k: TcpKey, it: TcpItem, p: Mbuf, l: Lengths, tunnel: bool)
    requires ItemOk(k, it, l, tunnel) && PacketOk(p, l, tunnel) && KeyOf(p.hdr, tunnel) == k
    requires Matching(it, p, tunnel) && CanMerge(it, p, 1, tunnel)
    requires p.hdr.sentSeq == Wrap(it.sentSeq + |Bytes(it.firstseg, tunnel)|)
    ensures PacketUnits(Merge(it, p, 1, tunnel).firstseg, tunnel)
      == PacketUnits(it.firstseg, tunnel) + PacketUnits(Flagged(p, 1, it.firstseg, tunnel), tunnel)
  {
    var q := Flagged(p, 1, it.firstseg, tunnel);
    AppendOk(k, it, p, l, tunnel);
    FlaggedBytes(p, 1, it.firstseg, l, tunnel);
    MergeHeader(it, p, 1, tunnel);
    ChainUnits(k, Merge(it, p, 1, tunnel).firstseg, it.firstseg, q, tunnel);
  }

  lemma PrependUnits(k: TcpKey, it: TcpItem, p: Mbuf, l: Lengths, tunnel: bool)
    requires ItemOk(k, it, l, tunnel) && PacketOk(p, l, tunnel) && KeyOf(p.hdr, tunnel) == k
    requires Matching(it, p, tunnel) && CanMerge(it, p, -1, tunnel)
    requires it.sentSeq == Wrap(p.hdr.sentSeq + |Bytes(p, tunnel)|)
    ensures PacketUnits(Merge(it, p, -1, tunnel).firstseg, tunnel)
      == PacketUnits(it.firstseg, tunnel) + PacketUnits(Flagged(p, -1, p, tunnel), tunnel)
  {
    var q := Flagged(p, -1, p, tunnel);
    PrependOk(k, it, p, l, tunnel);
    FlaggedBytes(p, -1, p, l, tunnel);
    MergeHeader(it, p, -1, tunnel);
    ChainUnits(k, Merge(it, p, -1, tunnel).firstseg, q, it.firstseg, tunnel);
  }

  /** Those are the bytes of the packet itself exactly unless flags are written into them. */
  lemma FlaggedUnits(p: Mbuf, cmp: int, head: Mbuf, l: Lengths, tunnel: bool)
    requires PacketOk(p, l, tunnel) && head.lens == p.lens
    ensures PacketUnits(Flagged(p, cmp, head, tunnel), tunnel) == PacketUnits(p, tunnel) <==> !Touches(p, cmp, tunnel)
  {
    FlaggedBytes(p, cmp, head, l, tunnel);
    if Touches(p, cmp, tunnel) {
      UnitsDiffer(KeyOf(p.hdr, tunnel), p.hdr.sentSeq, Bytes(Flagged(p, cmp, head, tunnel), tunnel), Bytes(p, tunnel));
    }
  }

  // ----- Scanning a chain

  /** Where the scan for `p` stops: at the first neighbour, or at the end. */
  function StopAt(c: seq<TcpItem>, p: Mbuf, k: nat, tunnel: bool): (s: nat)
    requires k <= |c|
    ensures k <= s <= |c|
    ensures forall i :: k <= i < s ==> Check(c[i], p, tunnel) == 0
    ensures s < |c| ==> Check(c[s], p, tunnel) != 0
    decreases |c| - k
  {
    if k == |c| || Check(c[k], p, tunnel) != 0 then k else StopAt(c, p, k + 1, tunnel)
  }

  predicate Merges(c: seq<TcpItem>, p: Mbuf, tunnel: bool) {
    var s := StopAt(c, p, 0, tunnel);
    s < |c| && CanMerge(c[s], p, Check(c[s], p, tunnel), tunnel)
  }

  /** A neighbour was found, but the merged packet would be too long or have too many segments. */
  predicate Refused(c: seq<TcpItem>, p: Mbuf, tunnel: bool) {
    StopAt(c, p, 0, tunnel) < |c| && !Merges(c, p, tunnel)
  }

  /** Where a packet goes that is not merged. */
  function Place(c: seq<TcpItem>, p: Mbuf, tunnel: bool): nat {
    var s := StopAt(c, p, 0, tunnel);
    if s < |c| && (s == 0 || !tunnel) then s + 1 else s
  }

  lemma {:induction false} DecideStops(c: seq<TcpItem>, p: Mbuf, k: nat, tunnel: bool)
    requires k <= |c|
    ensures var s := StopAt(c, p, k, tunnel);
      Decide(c, p, k, tunnel) ==
        if s < |c| then
          var cmp := Check(c[s], p, tunnel);
          if CanMerge(c[s], p, cmp, tunnel) then MergeAt(s, Merge(c[s], p, cmp, tunnel))
          else InsertAt(if s == 0 || !tunnel then s + 1 else s)
        else InsertAt(s)
    decreases |c| - k
  {
    if k < |c| && Check(c[k], p, tunnel) == 0 {
      DecideStops(c, p, k + 1, tunnel);
    }
  }

  /** The chain after `p` was stored in it. */
  function StepChain(c: seq<TcpItem>, p: Mbuf, t: nat, tunnel: bool): seq<TcpItem> {
    match Decide(c, p, 0, tunnel)
    case MergeAt(k, m) => c[k := m]
    case InsertAt(k) => Insert(c, k, Fresh(p, t, tunnel))
  }

  ghost predicate ItemsOk(k: TcpKey, c: seq<TcpItem>, l: Lengths, tunnel: bool) {
    forall i :: 0 <= i < |c| ==> ItemOk(k, c[i], l, tunnel)
  }

  /** The packet is not about to have its payload changed. */
  predicate Untouched(c: seq<TcpItem>, p: Mbuf, tunnel: bool) {
    var s := StopAt(c, p, 0, tunnel);
    Merges(c, p, tunnel) ==> !Touches(p, Check(c[s], p, tunnel), tunnel)
  }

  lemma StepOk(c: seq<TcpItem>, p: Mbuf, t: nat, l: Lengths, tunnel: bool)
    requires var k := KeyOf(p.hdr, tunnel); ItemsOk(k, c, l, tunnel) && PacketOk(p, l, tunnel)
    ensures ItemsOk(KeyOf(p.hdr, tunnel), StepChain(c, p, t, tunnel), l, tunnel)
    ensures StepMerges(KeyOf(p.hdr, tunnel), c, p, tunnel)
  {
    StepItems(c, p, t, l, tunnel);
    if Merges(c, p, tunnel) {
      StepMerged(c, p, l, tunnel);
    } else {
      DecideStops(c, p, 0, tunnel);
    }
  }

  lemma StepItems(c: seq<TcpItem>, p: Mbuf, t: nat, l: Lengths, tunnel: bool)
    requires var k := KeyOf(p.hdr, tunnel); ItemsOk(k, c, l, tunnel) && PacketOk(p, l, tunnel)
    ensures ItemsOk(KeyOf(p.hdr, tunnel), StepChain(c, p, t, tunnel), l, tunnel)
  {
    DecideStops(c, p, 0, tunnel);
    FreshOk(p, t, l, tunnel);
    if Merges(c, p, tunnel) {
      MergeOk(KeyOf(p.hdr, tunnel), c[StopAt(c, p, 0, tunnel)], p, l, tunnel);
    }
  }

  /** If the scan merges the packet, the item gets its buffers, and its bytes unless they are changed. */
  ghost predicate StepMerges(k: TcpKey, c: seq<TcpItem>, p: Mbuf, tunnel: bool) {
    var d := Decide(c, p, 0, tunnel);
    d.MergeAt? ==>
      && ItemBuffers(k, d.merged) == ItemBuffers(k, c[d.at]) + multiset(p.segs)
      && (PacketUnits(d.merged.firstseg, tunnel) == PacketUnits(c[d.at].firstseg, tunnel) + PacketUnits(p, tunnel)
        <==> Untouched(c, p, tunnel))
  }

  lemma StepMerged(c: seq<TcpItem>, p: Mbuf, l: Lengths, tunnel: bool)
    requires var k := KeyOf(p.hdr, tunnel); ItemsOk(k, c, l, tunnel) && PacketOk(p, l, tunnel)
    requires Merges(c, p, tunnel)
    ensures StepMerges(KeyOf(p.hdr, tunnel), c, p, tunnel)
  {
    var it := c[StopAt(c, p, 0, tunnel)];
    DecideStops(c, p, 0, tunnel);
    MergeOk(KeyOf(p.hdr, tunnel), it, p, l, tunnel);
    MergeUnits(KeyOf(p.hdr, tunnel), it, p, l, tunnel);
  }

  // ----- One call on the table

  /** The header lengths of the packets of a flow. Statements about a table are about the
      flows that have them; the packets of the others may be as they like. */
  type FlowLens = TcpKey -> Option<Lengths>

  predicate PacketIn(m: Mbuf, l: Option<Lengths>, tunnel: bool) { l.Some? ==> PacketOk(m, l.value, tunnel) }

  /** What holds of every stored item: its packet is of its flow, and as it should be if
      the flow is one of those. */
  predicate ItemIn(k: TcpKey, it: TcpItem, l: Option<Lengths>, tunnel: bool) {
    KeyOf(it.firstseg.hdr, tunnel) == k && (l.Some? ==> ItemOk(k, it, l.value, tunnel))
  }

  ghost predicate ItemsIn(k: TcpKey, c: seq<TcpItem>, l: Option<Lengths>, tunnel: bool) {
    forall i :: 0 <= i < |c| ==> ItemIn(k, c[i], l, tunnel)
  }

  function OkBy(lens: FlowLens, tunnel: bool): (TcpKey, TcpItem) -> bool {
    (k: TcpKey, it: TcpItem) => ItemIn(k, it, lens(k), tunnel)
  }

  ghost predicate ViewOk(v: TcpView, lens: FlowLens, tunnel: bool) {
    forall i :: 0 <= i < |v| && v[i].Flow? ==> ItemsIn(v[i].key, v[i].chain, lens(v[i].key), tunnel)
  }

  /** A packet that can be handled and has the lengths of its flow, if it is one of those. */
  predicate ArrivalOk(p: Mbuf, lens: FlowLens, tunnel: bool) {
    PacketIn(p, lens(KeyOf(p.hdr, tunnel)), tunnel)
  }

  /** The payload bytes of a packet of such a flow. */
  ghost function UnitsIn(m: Mbuf, lens: FlowLens, tunnel: bool): multiset<Unit<TcpKey>> {
    if lens(KeyOf(m.hdr, tunnel)).Some? then PacketUnits(m, tunnel) else multiset{}
  }

  ghost function UnitsBy(lens: FlowLens, tunnel: bool): (TcpKey, TcpItem) -> multiset<Unit<TcpKey>> {
    (k: TcpKey, it: TcpItem) => if lens(k).Some? then PacketUnits(it.firstseg, tunnel) else multiset{}
  }

  lemma StepIn(c: seq<TcpItem>, p: Mbuf, t: nat, l: Option<Lengths>, tunnel: bool)
    requires ItemsIn(KeyOf(p.hdr, tunnel), c, l, tunnel) && PacketIn(p, l, tunnel)
    ensures ItemsIn(KeyOf(p.hdr, tunnel), StepChain(c, p, t, tunnel), l, tunnel)
    ensures var d := Decide(c, p, 0, tunnel); var k := KeyOf(p.hdr, tunnel); d.MergeAt? ==>
      && ItemBuffers(k, d.merged) == ItemBuffers(k, c[d.at]) + multiset(p.segs)
      && (l.Some? ==> StepMerges(k, c, p, tunnel))
  {
    if l.Some? {
      StepOk(c, p, t, l.value, tunnel);
    } else {
      StepKeyed(c, p, t, tunnel);
    }
  }

  /** Flows and buffers are kept whatever the packets are. */
  lemma StepKeyed(c: seq<TcpItem>, p: Mbuf, t: nat, tunnel: bool)
    requires ItemsIn(KeyOf(p.hdr, tunnel), c, None, tunnel)
    ensures ItemsIn(KeyOf(p.hdr, tunnel), StepChain(c, p, t, tunnel), None, tunnel)
    ensures var d := Decide(c, p, 0, tunnel); var k := KeyOf(p.hdr, tunnel); d.MergeAt? ==>
      ItemBuffers(k, d.merged) == ItemBuffers(k, c[d.at]) + multiset(p.segs)
  {
    DecideStops(c, p, 0, tunnel);
    if Merges(c, p, tunnel) {
      var s := StopAt(c, p, 0, tunnel);
      MergeHeader(c[s], p, Check(c[s], p, tunnel), tunnel);
    }
  }

  /** Storing a packet after the scan of its flow. */
  function StoreScanned(v: TcpView, p: Mbuf, t: nat, tunnel: bool): Stored<TcpKey, TcpItem> {
    var key := KeyOf(p.hdr, tunnel);
    Store(v, key, Fresh(p, t, tunnel), Decide(Lookup(v, key), p, 0, tunnel))
  }

  /** A stored or merged packet steps its own chain and no other. */
  lemma StoreChain(v: TcpView, p: Mbuf, t: nat, tunnel: bool)
    requires Wf(v) && StoreScanned(v, p, t, tunnel).ret != -1
    ensures var key := KeyOf(p.hdr, tunnel); var v' := StoreScanned(v, p, t, tunnel).view;
      && Lookup(v', key) == StepChain(Lookup(v, key), p, t, tunnel)
      && |v'| == |v|
      && forall i :: 0 <= i < |v| && v'[i] != v[i] ==> v'[i] == Flow(key, Lookup(v', key))
  {
    var key := KeyOf(p.hdr, tunnel);
    var i, j := Find(v, key), FirstFree(v);
    FindUpdated(v, if i == |v| then j else i, StoreScanned(v, p, t, tunnel).view, key);
  }

  lemma StoreOk(v: TcpView, p: Mbuf, t: nat, lens: FlowLens, tunnel: bool)
    requires Wf(v) && ViewOk(v, lens, tunnel) && ArrivalOk(p, lens, tunnel)
    ensures var s := StoreScanned(v, p, t, tunnel);
      && Wf(s.view) && |s.view| == |v| && ViewOk(s.view, lens, tunnel)
      && Total(s.view) == Total(v) + (if s.ret == 0 then 1 else 0)
      && (s.ret == -1 ==> s.view == v)
  {
    var key := KeyOf(p.hdr, tunnel);
    StoreKeepsWf(v, key, Fresh(p, t, tunnel), Decide(Lookup(v, key), p, 0, tunnel));
    StepIn(Lookup(v, key), p, t, lens(key), tunnel);
    if StoreScanned(v, p, t, tunnel).ret != -1 {
      StoreChain(v, p, t, tunnel);
    }
  }

  /** One arrival loses nothing: every buffer has one owner, and every byte stays at
      its flow and sequence number, unless flags are written into the payload. */
  lemma StoreConserves(v: TcpView, p: Mbuf, t: nat, lens: FlowLens, tunnel: bool)
    requires Wf(v) && ViewOk(v, lens, tunnel) && ArrivalOk(p, lens, tunnel)
    ensures var s := StoreScanned(v, p, t, tunnel);
      Held(s.view, ItemBuffers) == Held(v, ItemBuffers) + (if s.ret == -1 then multiset{} else multiset(p.segs))
    ensures var s := StoreScanned(v, p, t, tunnel);
      (lens(KeyOf(p.hdr, tunnel)).Some? ==> Untouched(Lookup(v, KeyOf(p.hdr, tunnel)), p, tunnel)) ==>
        Held(s.view, UnitsBy(lens, tunnel))
          == Held(v, UnitsBy(lens, tunnel)) + (if s.ret == -1 then multiset{} else UnitsIn(p, lens, tunnel))
  {
    var key := KeyOf(p.hdr, tunnel);
    var c, d, it := Lookup(v, key), Decide(Lookup(v, key), p, 0, tunnel), Fresh(p, t, tunnel);
    StepIn(c, p, t, lens(key), tunnel);
    StoreHeld(v, key, it, d, ItemBuffers);
    if lens(key).Some? ==> Untouched(c, p, tunnel) {
      StoreHeld(v, key, it, d, UnitsBy(lens, tunnel));
    }
  }

  // ----- Flushing

  ghost predicate HeaderTrue(m: Mbuf, tunnel: bool) {
    if tunnel then
      var ip := |m.data| - m.lens.outerL2;
      m.hdr.outerTotalLen == ip && m.hdr.outerUdpLen == ip - m.lens.outerL3
        && m.hdr.totalLen == ip - m.lens.outerL3 - m.lens.l2
    else m.hdr.totalLen == |m.data| - m.lens.l2
  }

  /** A flushed packet: its bytes are at the sequence numbers its own header says, and the
      length fields of a merged packet are its true byte counts. */
  lemma FinishOk(k: TcpKey, it: TcpItem, l: Lengths, tunnel: bool)
    requires ItemOk(k, it, l, tunnel)
    ensures var m := Finish(it, tunnel);
      && PacketUnits(m, tunnel) == PacketUnits(it.firstseg, tunnel) && m.segs == it.firstseg.segs
      && m.data == it.firstseg.data && m.lens == it.firstseg.lens
      && KeyOf(m.hdr, tunnel) == k && m.hdr.sentSeq == it.sentSeq
      && (it.nbMerged > 1 || HeaderTrue(it.firstseg, tunnel) ==> HeaderTrue(m, tunnel))
  {
    UpdatedLengths(it.firstseg, l, tunnel);
  }

  /** The 16-bit length fields are written without truncation. */
  lemma UpdatedLengths(m: Mbuf, l: Lengths, tunnel: bool)
    requires PacketOk(m, l, tunnel)
    ensures HeaderTrue(UpdateHeader(m, tunnel), tunnel)
  {
    var ip := |m.data| - m.lens.outerL2;
    if tunnel {
      assert 0 <= ip - m.lens.outerL3 - m.lens.l2 && ip < U16;
    }
  }

  /** The same, as far as the flow is one with known header lengths. */
  lemma FinishIn(k: TcpKey, it: TcpItem, lens: FlowLens, tunnel: bool)
    requires ItemIn(k, it, lens(k), tunnel)
    ensures var m := Finish(it, tunnel);
      && KeyOf(m.hdr, tunnel) == k && UnitsIn(m, lens, tunnel) == UnitsBy(lens, tunnel)(k, it)
      && m.segs == it.firstseg.segs
  {
    if lens(k).Some? {
      FinishOk(k, it, lens(k).value, tunnel);
    }
  }

  ghost function SumUnits(ms: seq<Mbuf>, lens: FlowLens, tunnel: bool): multiset<Unit<TcpKey>> {
    Sum(ms, (m: Mbuf) => UnitsIn(m, lens, tunnel))
  }

  lemma {:induction false} EmittedSums(out: seq<Tagged<TcpKey, TcpItem>>, lens: FlowLens, tunnel: bool)
    requires AllOut(out, OkBy(lens, tunnel))
    ensures SumUnits(Emitted(out, FinishBy(tunnel)), lens, tunnel) == InOut(out, UnitsBy(lens, tunnel))
    ensures SumBuffers(Emitted(out, FinishBy(tunnel))) == InOut(out, ItemBuffers)
  {
    if out != [] {
      var e := Emitted(out, FinishBy(tunnel));
      assert e[1..] == Emitted(out[1..], FinishBy(tunnel));
      assert OkBy(lens, tunnel)(out[0].key, out[0].item);
      FinishIn(out[0].key, out[0].item, lens, tunnel);
      assert forall i :: 0 <= i < |out[1..]| ==> out[1..][i] == out[i + 1];
      EmittedSums(out[1..], lens, tunnel);
    }
  }

  lemma DrainKeeps<U>(k: TcpKey, c: seq<TcpItem>, ts: nat, room: nat,
      ok: (TcpKey, TcpItem) -> bool, f: (TcpKey, TcpItem) -> multiset<U>)
    ensures var d := DrainChain(c, ts, room);
      && Conserves(k, c, d, f) && (All(k, c, ok) ==> All(k, d.out, ok) && All(k, d.rest, ok))
  {
    DrainBound(c, ts, room);
    var d := DrainChain(c, ts, room);
    InChainConcat(k, d.out, d.rest, f);
    AllParts(k, c, d.out, d.rest, ok);
  }

  /** A flush keeps the table in order; the bytes and buffers it takes off the table
      are exactly those of the packets it puts out. */
  lemma FlushConserves(v: TcpView, room: nat, ts: nat, lens: FlowLens, tunnel: bool)
    requires Wf(v) && ViewOk(v, lens, tunnel)
    ensures var r := Flush(v, room, DrainBy(ts)); var e := Emitted(r.out, FinishBy(tunnel));
      && Wf(r.view) && |r.view| == |v| && ViewOk(r.view, lens, tunnel) && AllOut(r.out, OkBy(lens, tunnel))
      && |e| <= room && |e| + Total(r.view) <= Total(v)
      && Held(v, UnitsBy(lens, tunnel)) == SumUnits(e, lens, tunnel) + Held(r.view, UnitsBy(lens, tunnel))
      && Held(v, ItemBuffers) == SumBuffers(e) + Held(r.view, ItemBuffers)
  {
    forall i, n: nat | 0 <= i < |v| && v[i].Flow?
      ensures var d := DrainBy(ts)(v[i].chain, n);
        && Conserves(v[i].key, v[i].chain, d, UnitsBy(lens, tunnel)) && Conserves(v[i].key, v[i].chain, d, ItemBuffers)
        && All(v[i].key, d.out, OkBy(lens, tunnel)) && All(v[i].key, d.rest, OkBy(lens, tunnel))
        && Shrinks(v[i].chain, d, n)
    {
      DrainKeeps(v[i].key, v[i].chain, ts, n, OkBy(lens, tunnel), UnitsBy(lens, tunnel));
      DrainKeeps(v[i].key, v[i].chain, ts, n, OkBy(lens, tunnel), ItemBuffers);
      DrainBound(v[i].chain, ts, n);
    }
    FlushHeld(v, room, DrainBy(ts), UnitsBy(lens, tunnel));
    FlushHeld(v, room, DrainBy(ts), ItemBuffers);
    FlushKeepsWf(v, room, DrainBy(ts));
    KeepsWf(v, Flush(v, room, DrainBy(ts)).view);
    FlushAll(v, room, DrainBy(ts), OkBy(lens, tunnel));
    EmittedSums(Flush(v, room, DrainBy(ts)).out, lens, tunnel);
  }
}
