/**
  What reassembling UDP/IPv4 fragments keeps: every payload byte stays at its place
  in its datagram, every buffer stays owned by exactly one packet, and headers
  describe the packets they are on.
 */
module UdpLaws {
  import opened Basics
  import opened Packets
  import opened FlowTable
  import opened FlushLoop
  import opened Udp

  /** Which fragments share a flow: the outer source port does not matter. */
  lemma SameFlow(a: Header, b: Header)
    ensures KeyOf(a) == KeyOf(b) <==>
      var x, y := a.addr, b.addr;
      && x.ethSrc == y.ethSrc && x.ethDst == y.ethDst && x.ipSrc == y.ipSrc && x.ipDst == y.ipDst && a.ipId == b.ipId
      && x.tunnel == y.tunnel && x.outerEthSrc == y.outerEthSrc && x.outerEthDst == y.outerEthDst
      && x.outerIpSrc == y.outerIpSrc && x.outerIpDst == y.outerIpDst && x.outerDstPort == y.outerDstPort
  {}

  /** The payload bytes of a packet, labelled with flow and offset by its own header. */
  ghost function PacketUnits(m: Mbuf): multiset<Unit<UdpKey>> {
    Units(KeyOf(m.hdr), FragOffset(m.hdr), Bytes(m))
  }

  function Bytes(m: Mbuf): seq<byte> { Payload(m, HdrLen(m.lens)) }

  /** A fragment the code can handle: it has payload, its outer IPv4 length fits
      the 16-bit Total Length (section 3.1 of RFC 791), and all fragments of a flow have
      the header lengths `l` up to the transport header, which only the first one has. */
  predicate PacketOk(m: Mbuf, l: Lengths) {
    && SameUpToL4(m.lens, l) && L2Offset(l) > 0
    && HdrLen(l) < |m.data| && |m.data| - l.outerL2 <= MAX_IP_PKT_LENGTH
  }

  /** What holds of every stored item of flow `k`. */
  predicate ItemOk(k: UdpKey, it: UdpItem, l: Lengths) {
    && PacketOk(it.firstseg, l) && KeyOf(it.firstseg.hdr) == k
    && it.fragOffset == FragOffset(it.firstseg.hdr)
    && 1 <= it.nbMerged <= |Bytes(it.firstseg)|
    && (!it.firstseg.hdr.mf ==> it.isLastFrag)
    && (it.nbMerged == 1 ==> it.firstseg.hdr.mf == !it.isLastFrag)
  }

  function End(it: UdpItem): nat { it.fragOffset + |Bytes(it.firstseg)| }

  ghost function ItemUnits(k: UdpKey, it: UdpItem): multiset<Unit<UdpKey>> { PacketUnits(it.firstseg) }

  ghost function ItemBuffers(k: UdpKey, it: UdpItem): multiset<nat> { multiset(it.firstseg.segs) }

  lemma FreshOk(p: Mbuf, t: nat, l: Lengths)
    requires PacketOk(p, l)
    ensures ItemOk(KeyOf(p.hdr), Fresh(p, t), l)
  {}

  /** The neighbour test on intact lengths: the packet starts exactly where the item
      ends, or ends exactly where the item starts. */
  lemma NeighborMeans(k: UdpKey, it: UdpItem, p: Mbuf, l: Lengths)
    requires ItemOk(k, it, l) && PacketOk(p, l)
    ensures var off := FragOffset(p.hdr); var cmp := CheckNeighbor(it, off, DataLen(p));
      && (cmp > 0 <==> off == End(it))
      && (cmp < 0 <==> off + |Bytes(p)| == it.fragOffset)
      && (cmp == 0 || cmp == 1 || cmp == -1)
  {}

  /** Chaining two packets whose bytes are adjacent. */
  lemma ChainOk(head: Mbuf, tail: Mbuf, p: Mbuf, l: Lengths)
    requires PacketOk(head, l) && PacketOk(tail, l) && KeyOf(tail.hdr) == KeyOf(head.hdr)
    requires MergeFits(head, tail, p) && PacketOk(p, l) && FragOffset(tail.hdr) == FragOffset(head.hdr) + |Bytes(head)|
    ensures var m := Chain(head, tail, HdrLen(l));
      && PacketOk(m, l) && m.hdr == head.hdr && Bytes(m) == Bytes(head) + Bytes(tail)
      && PacketUnits(m) == PacketUnits(head) + PacketUnits(tail)
      && multiset(m.segs) == multiset(head.segs) + multiset(tail.segs)
  {
    ChainFits(head, tail, p, l);
    ChainUnits(Chain(head, tail, HdrLen(l)), head, tail);
  }

  lemma ChainUnits(m: Mbuf, head: Mbuf, tail: Mbuf)
    requires m.hdr == head.hdr && KeyOf(tail.hdr) == KeyOf(head.hdr) && Bytes(m) == Bytes(head) + Bytes(tail)
    requires FragOffset(tail.hdr) == FragOffset(head.hdr) + |Bytes(head)|
    ensures PacketUnits(m) == PacketUnits(head) + PacketUnits(tail)
  {
    UnitsRow(KeyOf(head.hdr), FragOffset(head.hdr), Bytes(head), FragOffset(tail.hdr), Bytes(tail), Bytes(m));
  }

  lemma UnitsRow(k: UdpKey, at: nat, a: seq<byte>, next: nat, b: seq<byte>, all: seq<byte>)
    requires next == at + |a| && all == a + b
    ensures Units(k, at, all) == Units(k, at, a) + Units(k, next, b)
  {
    UnitsConcat(k, at, a, b);
  }

  lemma ChainFits(head: Mbuf, tail: Mbuf, p: Mbuf, l: Lengths)
    requires PacketOk(head, l) && PacketOk(tail, l) && PacketOk(p, l) && MergeFits(head, tail, p)
    ensures PacketOk(Chain(head, tail, HdrLen(l)), l)
    ensures Bytes(Chain(head, tail, HdrLen(l))) == Bytes(head) + Bytes(tail)
  {
    ChainPayload(head, tail, HdrLen(l), HdrLen(l));
  }

  /** A merge of neighbours concatenates their bytes in place. */
  lemma MergeOk(k: UdpKey, it: UdpItem, p: Mbuf, last: bool, l: Lengths)
    requires ItemOk(k, it, l) && PacketOk(p, l) && KeyOf(p.hdr) == k && (!p.hdr.mf ==> last)
    requires var cmp := CheckNeighbor(it, FragOffset(p.hdr), DataLen(p)); cmp != 0 && CanMerge(it, p, cmp)
    ensures var off := FragOffset(p.hdr); var cmp := CheckNeighbor(it, off, DataLen(p));
      var m := Merge(it, p, cmp, off, last);
      && ItemOk(k, m, l)
      && m.startTime == it.startTime && m.nbMerged == it.nbMerged + 1 && m.isLastFrag == (last || it.isLastFrag)
      && Bytes(m.firstseg) == (if cmp > 0 then Bytes(it.firstseg) + Bytes(p) else Bytes(p) + Bytes(it.firstseg))
      && m.fragOffset == (if cmp > 0 then it.fragOffset else off)
      && ItemUnits(k, m) == ItemUnits(k, it) + PacketUnits(p)
      && ItemBuffers(k, m) == ItemBuffers(k, it) + multiset(p.segs)
  {
    NeighborMeans(k, it, p, l);
    if CheckNeighbor(it, FragOffset(p.hdr), DataLen(p)) > 0 {
      AppendOk(k, it, p, last, l);
    } else {
      PrependOk(k, it, p, last, l);
    }
  }

  /** What a merge makes of an item and a packet whose bytes are `bytes` one after the other. */
  ghost predicate Merged(k: UdpKey, it: UdpItem, p: Mbuf, last: bool, l: Lengths, m: UdpItem, bytes: seq<byte>) {
    && ItemOk(k, m, l)
    && m.startTime == it.startTime && m.nbMerged == it.nbMerged + 1 && m.isLastFrag == (last || it.isLastFrag)
    && Bytes(m.firstseg) == bytes
    && ItemUnits(k, m) == ItemUnits(k, it) + PacketUnits(p)
    && ItemBuffers(k, m) == ItemBuffers(k, it) + multiset(p.segs)
  }

  lemma AppendOk(k: UdpKey, it: UdpItem, p: Mbuf, last: bool, l: Lengths)
    requires ItemOk(k, it, l) && PacketOk(p, l) && KeyOf(p.hdr) == k && (!p.hdr.mf ==> last)
    requires FragOffset(p.hdr) == it.fragOffset + |Bytes(it.firstseg)| && MergeFits(it.firstseg, p, p)
    ensures var m := Merge(it, p, 1, FragOffset(p.hdr), last);
      Merged(k, it, p, last, l, m, Bytes(it.firstseg) + Bytes(p)) && m.fragOffset == it.fragOffset
  {
    ChainOk(it.firstseg, p, p, l);
  }

  lemma PrependOk(k: UdpKey, it: UdpItem, p: Mbuf, last: bool, l: Lengths)
    requires ItemOk(k, it, l) && PacketOk(p, l) && KeyOf(p.hdr) == k && (!p.hdr.mf ==> last)
    requires FragOffset(p.hdr) + |Bytes(p)| == it.fragOffset && MergeFits(p, it.firstseg, p)
    ensures var m := Merge(it, p, -1, FragOffset(p.hdr), last);
      Merged(k, it, p, last, l, m, Bytes(p) + Bytes(it.firstseg)) && m.fragOffset == FragOffset(p.hdr)
  {
    ChainOk(p, it.firstseg, p, l);
  }

  // ----- What the scan of a chain decides

  function Cmp(it: UdpItem, p: Mbuf): int { CheckNeighbor(it, FragOffset(p.hdr), DataLen(p)) }

  /** Where the scan for `p` stops: at the first neighbour, or the first item that
      starts behind `p`, or at the end. */
  function StopAt(c: seq<UdpItem>, p: Mbuf, k: nat): (s: nat)
    requires k <= |c|
    ensures k <= s <= |c|
    ensures forall i :: k <= i < s ==> Cmp(c[i], p) == 0 && c[i].fragOffset <= FragOffset(p.hdr)
    ensures s < |c| ==> Cmp(c[s], p) != 0 || FragOffset(p.hdr) < c[s].fragOffset
    decreases |c| - k
  {
    if k == |c| || Cmp(c[k], p) != 0 || FragOffset(p.hdr) < c[k].fragOffset then k else StopAt(c, p, k + 1)
  }

  /** A neighbour was found, but the merged packet would be too long. */
  predicate Refused(c: seq<UdpItem>, p: Mbuf) {
    var s := StopAt(c, p, 0);
    s < |c| && Cmp(c[s], p) != 0 && !CanMerge(c[s], p, Cmp(c[s], p))
  }

  predicate Merges(c: seq<UdpItem>, p: Mbuf) {
    var s := StopAt(c, p, 0);
    s < |c| && Cmp(c[s], p) != 0 && CanMerge(c[s], p, Cmp(c[s], p))
  }

  lemma {:induction false} DecideStops(c: seq<UdpItem>, p: Mbuf, k: nat)
    requires k <= |c|
    ensures var s := StopAt(c, p, k);
      Decide(c, p, k) ==
        if s < |c| && Cmp(c[s], p) != 0 then
          if CanMerge(c[s], p, Cmp(c[s], p)) then MergeAt(s, Merge(c[s], p, Cmp(c[s], p), FragOffset(p.hdr), !p.hdr.mf))
          else InsertAt(if s == 0 then 1 else s)
        else InsertAt(s)
    decreases |c| - k
  {
    if k < |c| && Cmp(c[k], p) == 0 && FragOffset(p.hdr) >= c[k].fragOffset {
      DecideStops(c, p, k + 1);
    }
  }

  /** The chain after `p` was stored in it. */
  function StepChain(c: seq<UdpItem>, p: Mbuf, t: nat): seq<UdpItem> {
    match Decide(c, p, 0)
    case MergeAt(k, m) => c[k := m]
    case InsertAt(k) => Insert(c, k, Fresh(p, t))
  }

  ghost predicate ItemsOk(k: UdpKey, c: seq<UdpItem>, l: Lengths) {
    forall i :: 0 <= i < |c| ==> ItemOk(k, c[i], l)
  }

  lemma StepOk(c: seq<UdpItem>, p: Mbuf, t: nat, l: Lengths)
    requires ItemsOk(KeyOf(p.hdr), c, l) && PacketOk(p, l)
    ensures ItemsOk(KeyOf(p.hdr), StepChain(c, p, t), l)
    ensures var d := Decide(c, p, 0); d.MergeAt? ==>
      && ItemUnits(KeyOf(p.hdr), d.merged) == ItemUnits(KeyOf(p.hdr), c[d.at]) + PacketUnits(p)
      && ItemBuffers(KeyOf(p.hdr), d.merged) == ItemBuffers(KeyOf(p.hdr), c[d.at]) + multiset(p.segs)
  {
    DecideStops(c, p, 0);
    FreshOk(p, t, l);
    if Merges(c, p) {
      MergeOk(KeyOf(p.hdr), c[StopAt(c, p, 0)], p, !p.hdr.mf, l);
    }
  }

  // ----- One call on the table

  /** The header lengths of the packets of a flow. Statements about a table are about the
      flows that have them; the packets of the others may be as they like. */
  type FlowLens = UdpKey -> Option<Lengths>

  predicate PacketIn(m: Mbuf, l: Option<Lengths>) { l.Some? ==> PacketOk(m, l.value) }

  /** What holds of every stored item: its packet is of its flow, and as it should be if
      the flow is one of those. */
  predicate ItemIn(k: UdpKey, it: UdpItem, l: Option<Lengths>) {
    KeyOf(it.firstseg.hdr) == k && (l.Some? ==> ItemOk(k, it, l.value))
  }

  ghost predicate ItemsIn(k: UdpKey, c: seq<UdpItem>, l: Option<Lengths>) {
    forall i :: 0 <= i < |c| ==> ItemIn(k, c[i], l)
  }

  function OkBy(lens: FlowLens): (UdpKey, UdpItem) -> bool {
    (k: UdpKey, it: UdpItem) => ItemIn(k, it, lens(k))
  }

  ghost predicate ViewOk(v: UdpView, lens: FlowLens) {
    forall i :: 0 <= i < |v| && v[i].Flow? ==> ItemsIn(v[i].key, v[i].chain, lens(v[i].key))
  }

  /** The payload bytes of a packet of such a flow. */
  ghost function UnitsIn(m: Mbuf, lens: FlowLens): multiset<Unit<UdpKey>> {
    if lens(KeyOf(m.hdr)).Some? then PacketUnits(m) else multiset{}
  }

  ghost function UnitsBy(lens: FlowLens): (UdpKey, UdpItem) -> multiset<Unit<UdpKey>> {
    (k: UdpKey, it: UdpItem) => if lens(k).Some? then ItemUnits(k, it) else multiset{}
  }

  lemma {:induction false} InChainBy(k: UdpKey, c: seq<UdpItem>, lens: FlowLens)
    ensures InChain(k, c, UnitsBy(lens)) == if lens(k).Some? then InChain(k, c, ItemUnits) else multiset{}
  {
    if c != [] {
      InChainBy(k, c[1..], lens);
    }
  }

  lemma StepIn(c: seq<UdpItem>, p: Mbuf, t: nat, l: Option<Lengths>)
    requires ItemsIn(KeyOf(p.hdr), c, l) && PacketIn(p, l)
    ensures ItemsIn(KeyOf(p.hdr), StepChain(c, p, t), l)
    ensures var d := Decide(c, p, 0); d.MergeAt? ==>
      && (l.Some? ==> ItemUnits(KeyOf(p.hdr), d.merged) == ItemUnits(KeyOf(p.hdr), c[d.at]) + PacketUnits(p))
      && ItemBuffers(KeyOf(p.hdr), d.merged) == ItemBuffers(KeyOf(p.hdr), c[d.at]) + multiset(p.segs)
  {
    if l.Some? {
      StepOk(c, p, t, l.value);
    } else {
      DecideStops(c, p, 0);
    }
  }

  /** A stored or merged packet steps its own chain and no other. */
  lemma AcceptChain(v: UdpView, p: Mbuf, t: nat)
    requires Wf(v) && Accept(v, p, t).ret != -1
    ensures var key := KeyOf(p.hdr); var v' := Accept(v, p, t).view;
      && Lookup(v', key) == StepChain(Lookup(v, key), p, t)
      && |v'| == |v|
      && forall i :: 0 <= i < |v| && v'[i] != v[i] ==> v'[i] == Flow(key, Lookup(v', key))
  {
    var key := KeyOf(p.hdr);
    var i, j := Find(v, key), FirstFree(v);
    var v' := Accept(v, p, t).view;
    FindUpdated(v, if i == |v| then j else i, v', key);
  }

  lemma AcceptOk(v: UdpView, p: Mbuf, t: nat, lens: FlowLens)
    requires Wf(v) && ViewOk(v, lens) && (Rejected(p) || PacketIn(p, lens(KeyOf(p.hdr))))
    ensures var s := Accept(v, p, t);
      && Wf(s.view) && |s.view| == |v| && ViewOk(s.view, lens)
      && Total(s.view) == Total(v) + (if s.ret == 0 then 1 else 0)
      && (s.ret == -1 ==> s.view == v)
  {
    if !Rejected(p) {
      var key := KeyOf(p.hdr);
      StoreKeepsWf(v, key, Fresh(p, t), Decide(Lookup(v, key), p, 0));
      StepIn(Lookup(v, key), p, t, lens(key));
      if Accept(v, p, t).ret != -1 {
        AcceptChain(v, p, t);
        AcceptItemsOk(v, Accept(v, p, t).view, key, lens);
      }
    }
  }

  lemma AcceptItemsOk(v: UdpView, v': UdpView, key: UdpKey, lens: FlowLens)
    requires ViewOk(v, lens) && |v'| == |v| && ItemsIn(key, Lookup(v', key), lens(key))
    requires forall i :: 0 <= i < |v| && v'[i] != v[i] ==> v'[i] == Flow(key, Lookup(v', key))
    ensures ViewOk(v', lens)
  {}

  lemma AcceptHeld<U>(v: UdpView, p: Mbuf, t: nat, f: (UdpKey, UdpItem) -> multiset<U>)
    requires !Rejected(p)
    requires var d := Decide(Lookup(v, KeyOf(p.hdr)), p, 0);
      d.MergeAt? ==>
        f(KeyOf(p.hdr), d.merged) == f(KeyOf(p.hdr), Lookup(v, KeyOf(p.hdr))[d.at]) + f(KeyOf(p.hdr), Fresh(p, t))
    ensures var s := Accept(v, p, t);
      Held(s.view, f) == Held(v, f) + (if s.ret == -1 then multiset{} else f(KeyOf(p.hdr), Fresh(p, t)))
  {
    var key := KeyOf(p.hdr);
    StoreHeld(v, key, Fresh(p, t), Decide(Lookup(v, key), p, 0), f);
  }

  /** One arrival keeps the table in order and loses nothing: all bytes stay at their
      flow and offset, and every buffer has one owner. Result -1 changes nothing. */
  lemma AcceptConserves(v: UdpView, p: Mbuf, t: nat, lens: FlowLens)
    requires Wf(v) && ViewOk(v, lens) && (Rejected(p) || PacketIn(p, lens(KeyOf(p.hdr))))
    ensures var s := Accept(v, p, t);
      && Held(s.view, UnitsBy(lens)) == Held(v, UnitsBy(lens)) + (if s.ret == -1 then multiset{} else UnitsIn(p, lens))
      && Held(s.view, ItemBuffers) == Held(v, ItemBuffers) + (if s.ret == -1 then multiset{} else multiset(p.segs))
  {
    if !Rejected(p) {
      var key := KeyOf(p.hdr);
      StepIn(Lookup(v, key), p, t, lens(key));
      AcceptHeld(v, p, t, UnitsBy(lens));
      AcceptHeld(v, p, t, ItemBuffers);
    }
  }

  // ----- Flushing

  /** The merge loop before a packet is put out keeps the bytes and buffers of a chain. */
  lemma {:induction false} FuseOk(k: UdpKey, c: seq<UdpItem>, l: Lengths)
    requires c != [] && ItemsOk(k, c, l)
    ensures ItemsOk(k, Fuse(c), l)
    ensures InChain(k, Fuse(c), ItemUnits) == InChain(k, c, ItemUnits)
    ensures InChain(k, Fuse(c), ItemBuffers) == InChain(k, c, ItemBuffers)
    decreases |c|
  {
    if |c| > 1 {
      var p := c[1].firstseg;
      var cmp := CheckNeighbor(c[0], c[1].fragOffset, DataLen(p));
      if cmp != 0 && CanMerge(c[0], p, cmp) {
        var m := Merge(c[0], p, cmp, c[1].fragOffset, c[1].isLastFrag);
        MergeOk(k, c[0], p, c[1].isLastFrag, l);
        FuseOk(k, [m] + c[2..], l);
        MergedHead(k, c, m, ItemUnits);
        MergedHead(k, c, m, ItemBuffers);
      }
    }
  }

  /** Buffers it keeps whatever the packets are. */
  lemma {:induction false} FuseBuffers(k: UdpKey, c: seq<UdpItem>)
    requires c != []
    ensures InChain(k, Fuse(c), ItemBuffers) == InChain(k, c, ItemBuffers)
    decreases |c|
  {
    var d := FuseOnce(c);
    if |c| > 1 && d != c {
      FuseBuffers(k, d);
      MergedHead(k, c, d[0], ItemBuffers);
    }
  }

  lemma {:induction false} FuseKeyed(k: UdpKey, c: seq<UdpItem>)
    requires c != [] && ItemsIn(k, c, None)
    ensures ItemsIn(k, Fuse(c), None)
    decreases |c|
  {
    var d := FuseOnce(c);
    if |c| > 1 && d != c {
      assert KeyOf(c[0].firstseg.hdr) == KeyOf(c[1].firstseg.hdr) == k;
      FuseKeyed(k, d);
    }
  }

  lemma FuseIn(k: UdpKey, c: seq<UdpItem>, l: Option<Lengths>)
    requires c != [] && ItemsIn(k, c, l)
    ensures ItemsIn(k, Fuse(c), l)
    ensures l.Some? ==> InChain(k, Fuse(c), ItemUnits) == InChain(k, c, ItemUnits)
  {
    if l.Some? {
      FuseOk(k, c, l.value);
    } else {
      FuseKeyed(k, c);
    }
  }

  ghost predicate FuseKeeps<U>(k: UdpKey, m: seq<UdpItem>, ok: (UdpKey, UdpItem) -> bool,
                               f: (UdpKey, UdpItem) -> multiset<U>) {
    m != [] && All(k, m, ok) ==> All(k, Fuse(m), ok) && InChain(k, Fuse(m), f) == InChain(k, m, f)
  }

  /** What fusing keeps, draining keeps. */
  lemma {:induction false} DrainKeeps<U>(k: UdpKey, c: seq<UdpItem>, ts: nat, room: nat,
      ok: (UdpKey, UdpItem) -> bool, f: (UdpKey, UdpItem) -> multiset<U>)
    requires forall m: seq<UdpItem> :: FuseKeeps(k, m, ok, f)
    requires All(k, c, ok)
    ensures Drained(k, c, DrainChain(c, ts, room), ok, f)
    decreases |c|
  {
    if c != [] && room > 0 && c[0].startTime <= ts {
      var rest := Fuse(c)[1..];
      assert FuseKeeps(k, c, ok, f);
      FuseRest(k, c, ok);
      DrainKeeps(k, rest, ts, room - 1, ok, f);
      DrainedMore(k, c, DrainChain(rest, ts, room - 1), ok, f);
    }
  }

  lemma FuseRest(k: UdpKey, c: seq<UdpItem>, ok: (UdpKey, UdpItem) -> bool)
    requires c != [] && All(k, Fuse(c), ok)
    ensures All(k, Fuse(c)[1..], ok) && |Fuse(c)[1..]| < |c|
  {}

  lemma DrainedMore<U>(k: UdpKey, c: seq<UdpItem>, r: Drain<UdpItem>, ok: (UdpKey, UdpItem) -> bool,
                       f: (UdpKey, UdpItem) -> multiset<U>)
    requires c != [] && FuseKeeps(k, c, ok, f) && All(k, c, ok) && Drained(k, Fuse(c)[1..], r, ok, f)
    ensures Drained(k, c, Drain([Fuse(c)[0]] + r.out, r.rest), ok, f)
  {
    ConservesMore(k, c, Fuse(c), r, f);
    AllMore(k, Fuse(c), r.out, ok);
  }

  lemma FuseKept(k: UdpKey, m: seq<UdpItem>, lens: FlowLens)
    ensures FuseKeeps(k, m, OkBy(lens), UnitsBy(lens)) && FuseKeeps(k, m, OkBy(lens), ItemBuffers)
  {
    if m != [] && All(k, m, OkBy(lens)) {
      assert forall i :: 0 <= i < |m| ==> OkBy(lens)(k, m[i]) == ItemIn(k, m[i], lens(k));
      FuseIn(k, m, lens(k));
      FuseBuffers(k, m);
      InChainBy(k, m, lens);
      InChainBy(k, Fuse(m), lens);
    }
  }

  lemma DrainOk(k: UdpKey, c: seq<UdpItem>, ts: nat, room: nat, lens: FlowLens)
    requires ItemsIn(k, c, lens(k))
    ensures var d := DrainChain(c, ts, room);
      && All(k, d.out, OkBy(lens)) && All(k, d.rest, OkBy(lens))
      && Conserves(k, c, d, UnitsBy(lens)) && Conserves(k, c, d, ItemBuffers)
  {
    forall m: seq<UdpItem>
      ensures FuseKeeps(k, m, OkBy(lens), UnitsBy(lens)) && FuseKeeps(k, m, OkBy(lens), ItemBuffers)
    {
      FuseKept(k, m, lens);
    }
    DrainKeeps(k, c, ts, room, OkBy(lens), UnitsBy(lens));
    DrainKeeps(k, c, ts, room, OkBy(lens), ItemBuffers);
  }

  ghost predicate AllDue(c: seq<UdpItem>, ts: nat) { forall i :: 0 <= i < |c| ==> c[i].startTime <= ts }

  lemma FuseDue(c: seq<UdpItem>, ts: nat)
    requires c != [] && AllDue(c, ts)
    ensures AllDue(Fuse(c)[1..], ts)
  {
    var m := Fuse(c);
    var n := |c| - |m| + 1;
    assert m[1..] == c[n..];
    assert forall i :: 0 <= i < |c[n..]| ==> c[n..][i] == c[n + i];
  }

  /** With room for every item, a flush that finds all items due leaves none. */
  lemma {:induction false} DrainEmpties(c: seq<UdpItem>, ts: nat, room: nat)
    requires AllDue(c, ts) && |c| <= room
    ensures DrainChain(c, ts, room).rest == []
    decreases |c|
  {
    if c != [] {
      FuseDue(c, ts);
      DrainEmpties(Fuse(c)[1..], ts, room - 1);
    }
  }

  ghost predicate HeaderTrue(m: Mbuf) {
    var ip := |m.data| - m.lens.outerL2;
    m.hdr.outerTotalLen == ip && m.hdr.outerUdpLen == ip - m.lens.outerL3
      && m.hdr.totalLen == ip - m.lens.outerL3 - m.lens.l2
  }

  /** A flushed packet: its bytes are at the places its own header says, More Fragments
      is clear exactly if the item has the last fragment, and the three length fields
      of a merged packet are its true byte counts. */
  lemma FinishOk(k: UdpKey, it: UdpItem, l: Lengths)
    requires ItemOk(k, it, l)
    ensures var m := Finish(it);
      && PacketUnits(m) == ItemUnits(k, it) && m.segs == it.firstseg.segs && Bytes(m) == Bytes(it.firstseg)
      && KeyOf(m.hdr) == k && FragOffset(m.hdr) == it.fragOffset
      && (m.hdr.mf <==> !it.isLastFrag)
      && (it.nbMerged > 1 || HeaderTrue(it.firstseg) ==> HeaderTrue(m))
  {}

  /** The same, as far as the flow is one with known header lengths. */
  lemma FinishIn(k: UdpKey, it: UdpItem, lens: FlowLens)
    requires ItemIn(k, it, lens(k))
    ensures var m := Finish(it);
      KeyOf(m.hdr) == k && UnitsIn(m, lens) == UnitsBy(lens)(k, it) && m.segs == it.firstseg.segs
  {
    if lens(k).Some? {
      FinishOk(k, it, lens(k).value);
    }
  }

  ghost function SumUnits(ms: seq<Mbuf>, lens: FlowLens): multiset<Unit<UdpKey>> {
    Sum(ms, (m: Mbuf) => UnitsIn(m, lens))
  }

  lemma {:induction false} EmittedSums(out: seq<Tagged<UdpKey, UdpItem>>, lens: FlowLens)
    requires AllOut(out, OkBy(lens))
    ensures SumUnits(Emitted(out, Finish), lens) == InOut(out, UnitsBy(lens))
    ensures SumBuffers(Emitted(out, Finish)) == InOut(out, ItemBuffers)
  {
    if out != [] {
      var e := Emitted(out, Finish);
      assert e[1..] == Emitted(out[1..], Finish);
      assert OkBy(lens)(out[0].key, out[0].item);
      FinishIn(out[0].key, out[0].item, lens);
      assert forall i :: 0 <= i < |out[1..]| ==> out[1..][i] == out[i + 1];
      EmittedSums(out[1..], lens);
    }
  }

  /** A flush keeps the table in order; the bytes and buffers it takes off the table
      are exactly those of the packets it puts out. */
  lemma FlushConserves(v: UdpView, room: nat, ts: nat, lens: FlowLens)
    requires Wf(v) && ViewOk(v, lens)
    ensures var r := Flush(v, room, DrainBy(ts)); var e := Emitted(r.out, Finish);
      && Wf(r.view) && |r.view| == |v| && ViewOk(r.view, lens) && AllOut(r.out, OkBy(lens))
      && |e| <= room && |e| + Total(r.view) <= Total(v)
      && Held(v, UnitsBy(lens)) == SumUnits(e, lens) + Held(r.view, UnitsBy(lens))
      && Held(v, ItemBuffers) == SumBuffers(e) + Held(r.view, ItemBuffers)
  {
    forall i, n: nat | 0 <= i < |v| && v[i].Flow?
      ensures var d := DrainBy(ts)(v[i].chain, n);
        && Conserves(v[i].key, v[i].chain, d, UnitsBy(lens)) && Conserves(v[i].key, v[i].chain, d, ItemBuffers)
        && All(v[i].key, d.out, OkBy(lens)) && All(v[i].key, d.rest, OkBy(lens))
        && Shrinks(v[i].chain, d, n)
    {
      DrainOk(v[i].key, v[i].chain, ts, n, lens);
      DrainBound(v[i].chain, ts, n);
    }
    FlushHeld(v, room, DrainBy(ts), UnitsBy(lens));
    FlushHeld(v, room, DrainBy(ts), ItemBuffers);
    FlushKeepsWf(v, room, DrainBy(ts));
    KeepsWf(v, Flush(v, room, DrainBy(ts)).view);
    FlushAll(v, room, DrainBy(ts), OkBy(lens));
    EmittedSums(Flush(v, room, DrainBy(ts)).out, lens);
  }
}
