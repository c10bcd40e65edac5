/**
  What TCP reassembly is for, told by the fields and the data of the packets alone: which
  packets are neighbours, and that the packets of a stream come out as one packet.
 */
module TcpDelivery {
  import opened Basics
  import opened Packets
  import opened Parts
  import opened FlowTable
  import opened FlushLoop
  import opened Tcp
  import opened TcpLaws
  import opened TcpStreams
  import opened TcpSessions

  /** The header bytes in front of the payload. */
  function Front(l: Lengths, tunnel: bool): nat { (if tunnel then l.outerL2 + l.outerL3 else 0) + l.l2 + l.l3 + l.l4 }

  // ----- Which packets are taken

  /** With a free slot, a table of tunnelled packets takes exactly those with a TCP header of
      20 to 60 bytes, ACK alone and payload. */
  lemma TunnelTakenIff(v: TcpView, p: Mbuf, t: nat)
    requires Wf(v) && Total(v) < |v|
    ensures TunnelAccept(v, p, t).ret != -1 <==>
      20 <= p.lens.l4 <= 60 && p.hdr.tcpFlags == 0x10 && |p.data| > Front(p.lens, true)
  {
    AcceptWf(v, p, t, true);
  }

  /** A table of plain packets takes exactly those with such a header and payload that have
      no flags but FIN, PSH and ACK: any of these for a flow it knows, ACK alone for others. */
  lemma PlainTakenIff(v: TcpView, p: Mbuf, t: nat)
    requires Wf(v) && Total(v) < |v|
    ensures PlainAccept(v, p, t).ret != -1 <==>
      && 20 <= p.lens.l4 <= 60 && |p.data| > Front(p.lens, false) && p.hdr.tcpFlags & !0x19 == 0
      && (if Lookup(v, KeyOf(p.hdr, false)) != [] then p.hdr.tcpFlags != 0 else p.hdr.tcpFlags == 0x10)
  {
    AcceptWf(v, p, t, false);
    AcceptScans(v, p, t, false);
    NoOtherFlag(p.hdr.tcpFlags);
    var i := Find(v, KeyOf(p.hdr, false));
    assert i < |v| ==> v[i].chain != [];
  }

  lemma NoOtherFlag(flags: byte)
    ensures VALID_FLAGS == 0x19 && (flags & !0x19 == 0 ==> (flags & 0x19 == 0 <==> flags == 0))
  {}

  // ----- Padding

  /** Padding behind the length that the IPv4 header gives makes no difference to a table of
      plain packets; the packet itself loses it if it gets past the tests of its header. */
  lemma PaddingIgnored(v: TcpView, p: Mbuf, pad: seq<byte>, t: nat)
    requires |p.data| == p.hdr.totalLen + p.lens.l2
    ensures var q := p.(data := p.data + pad);
      && PlainAccept(v, AfterTrim(q), t) == PlainAccept(v, p, t) && AfterTrim(p) == p
      && AfterTrim(q) == if 20 <= p.lens.l4 <= 60 && p.hdr.tcpFlags & !0x19 == 0 then p else q
  {
    NoOtherFlag(p.hdr.tcpFlags);
    assert (p.data + pad)[..|p.data|] == p.data;
    assert pad == [] ==> p.data + pad == p.data;
  }

  /** A packet that is longer is cut there, and only there. */
  lemma TrimmedData(p: Mbuf)
    requires 20 <= p.lens.l4 <= 60 && p.hdr.tcpFlags & !0x19 == 0
    ensures var n := p.lens.l2 + p.hdr.totalLen;
      AfterTrim(p) == if n < |p.data| then p.(data := p.data[..n]) else p
  {
    NoOtherFlag(p.hdr.tcpFlags);
  }

  // ----- Neighbours

  /** Packets whose headers do not keep them apart: equal options and Don't Fragment bits. */
  predicate Comparable(it: TcpItem, p: Mbuf, tunnel: bool) {
    && p.lens.l4 == it.firstseg.lens.l4 && (p.lens.l4 > 20 ==> p.hdr.options == it.firstseg.hdr.options)
    && p.hdr.df == it.isAtomic && (tunnel ==> p.hdr.outerDf == it.outerIsAtomic)
  }

  /** Exactly when a packet is appended or prepended: its sequence number, and the IPv4 IDs
      of packets that may be fragmented, continue those of the item. */
  lemma CheckIff(k: TcpKey, it: TcpItem, p: Mbuf, l: Lengths, tunnel: bool)
    requires ItemOk(k, it, l, tunnel) && PacketOk(p, l, tunnel)
    ensures Check(it, p, tunnel) == 1 <==>
      && Comparable(it, p, tunnel)
      && p.hdr.sentSeq == (it.sentSeq + |it.firstseg.data| - Front(it.firstseg.lens, tunnel)) % U32
      && (p.hdr.df || p.hdr.ipId == it.ipId + 1)
      && (!tunnel || p.hdr.outerDf || p.hdr.outerIpId == it.outerIpId + 1)
    ensures Check(it, p, tunnel) == -1 <==>
      && Comparable(it, p, tunnel)
      && it.sentSeq == (p.hdr.sentSeq + |p.data| - Front(p.lens, tunnel)) % U32
      && (p.hdr.df || p.hdr.ipId + it.nbMerged == it.ipId)
      && (!tunnel || p.hdr.outerDf || p.hdr.outerIpId + it.nbMerged == it.outerIpId)
    ensures Check(it, p, tunnel) != 1 && Check(it, p, tunnel) != -1 ==> Check(it, p, tunnel) == 0
  {
    var n, m := |it.firstseg.data| - Front(it.firstseg.lens, tunnel), |p.data| - Front(p.lens, tunnel);
    assert DataLen(it.firstseg, tunnel) == n && DataLen(p, tunnel) == m;
    NotBoth(it.sentSeq, n, p.hdr.sentSeq, m);
  }

  /** A packet cannot be in front of an item and behind it. */
  lemma NotBoth(a: uint32, n: nat, b: uint32, m: nat)
    requires 0 < n < U16 && 0 < m < U16
    ensures !(b == (a + n) % U32 && a == (b + m) % U32)
  {}

  /** A neighbour is merged exactly if the IPv4 packet stays within 65535 bytes and the front
      part has fewer than 20 segments. */
  lemma MergeLimits(k: TcpKey, it: TcpItem, p: Mbuf, cmp: int, l: Lengths, tunnel: bool)
    requires ItemOk(k, it, l, tunnel) && PacketOk(p, l, tunnel) && p.lens == it.firstseg.lens
    ensures CanMerge(it, p, cmp, tunnel) <==>
      && |it.firstseg.data| + |p.data| - Front(p.lens, tunnel) - (if tunnel then l.outerL2 else l.l2) <= 65535
      && |(if cmp > 0 then it.firstseg else p).segs| < 20
  {}

  // ----- A stream of packets

  function JoinData(ps: seq<Mbuf>, tunnel: bool): seq<byte> {
    if ps == [] then [] else Data(ps[0], tunnel) + JoinData(ps[1..], tunnel)
  }

  function Data(m: Mbuf, tunnel: bool): seq<byte> {
    if Front(m.lens, tunnel) <= |m.data| then m.data[Front(m.lens, tunnel)..] else []
  }

  /** Packet `q` comes next after packet `p` in a stream. */
  predicate Succeeds(p: Mbuf, q: Mbuf, tunnel: bool) {
    && q.hdr.sentSeq == (p.hdr.sentSeq + |p.data| - Front(p.lens, tunnel)) % U32
    && q.hdr.df == p.hdr.df && (q.hdr.df || q.hdr.ipId == p.hdr.ipId + 1) && q.hdr.options == p.hdr.options
    && (tunnel ==> q.hdr.outerDf == p.hdr.outerDf && (q.hdr.outerDf || q.hdr.outerIpId == p.hdr.outerIpId + 1))
  }

  predicate Segment(k: TcpKey, p: Mbuf, l: Lengths, tunnel: bool) {
    && KeyOf(p.hdr, tunnel) == k && p.lens == l && p.hdr.tcpFlags == 0x10 && Front(l, tunnel) < |p.data|
  }

  /** Packets of flow `k` in sequence, with equal headers and ACK alone, that fit together in
      one IPv4 packet and in the segments allowed. */
  ghost predicate Stream(k: TcpKey, ps: seq<Mbuf>, l: Lengths, tunnel: bool) {
    && 20 <= l.l4 <= 60 && (tunnel ==> l.outerL2 + l.outerL3 > 0)
    && (forall i :: 0 <= i < |ps| ==> Segment(k, ps[i], l, tunnel))
    && (forall i :: 0 < i < |ps| ==> Succeeds(ps[i - 1], ps[i], tunnel))
    && Front(l, tunnel) - (if tunnel then l.outerL2 else l.l2) + |JoinData(ps, tunnel)| <= 65535
    && (ps != [] ==> |JoinSegs(ps[..|ps| - 1])| < 20)
  }

  lemma {:induction false} SameBytes(ps: seq<Mbuf>, tunnel: bool)
    ensures JoinData(ps, tunnel) == JoinBytes(ps, tunnel)
  {
    if ps != [] {
      SameBytes(ps[1..], tunnel);
    }
  }

  lemma JoinDataConcat(a: seq<Mbuf>, b: seq<Mbuf>, tunnel: bool)
    ensures JoinData(a + b, tunnel) == JoinData(a, tunnel) + JoinData(b, tunnel)
  {
    JoinBytesConcat(a, b, tunnel);
    SameBytes(a, tunnel);
    SameBytes(b, tunnel);
    SameBytes(a + b, tunnel);
  }

  /** The front of a stream is a stream. */
  lemma StreamFront(k: TcpKey, ps: seq<Mbuf>, n: nat, l: Lengths, tunnel: bool)
    requires Stream(k, ps, l, tunnel) && n <= |ps|
    ensures Stream(k, ps[..n], l, tunnel)
  {
    var a, b := ps[..n], ps[n..];
    assert ps == a + b;
    JoinDataConcat(a, b, tunnel);
    FewerSegs(ps, n);
    forall i | 0 < i < |a| ensures Succeeds(a[i - 1], a[i], tunnel) {
      assert Succeeds(ps[i - 1], ps[i], tunnel);
    }
  }

  lemma FewerSegs(ps: seq<Mbuf>, n: nat)
    requires n <= |ps|
    ensures n > 0 ==> |JoinSegs(ps[..n][..n - 1])| <= |JoinSegs(ps[..|ps| - 1])|
  {
    if n > 0 {
      assert ps[..n][..n - 1] == ps[..n - 1];
      assert ps[..|ps| - 1] == ps[..n - 1] + ps[n - 1..|ps| - 1];
      JoinSegsConcat(ps[..n - 1], ps[n - 1..|ps| - 1]);
    }
  }

  // ----- The item of a stream

  /** The item that the packets of a stream make. */
  ghost predicate Grown(k: TcpKey, it: TcpItem, ps: seq<Mbuf>, l: Lengths, tunnel: bool) {
    && ps != [] && ItemOk(k, it, l, tunnel) && Built(k, it, ps, tunnel) && it.firstseg.lens == l
    && var z := ps[|ps| - 1].hdr;
      && (z.df || it.ipId == z.ipId) && (!tunnel || z.outerDf || it.outerIpId == z.outerIpId)
  }

  lemma SegmentOk(k: TcpKey, ps: seq<Mbuf>, l: Lengths, tunnel: bool, i: nat)
    requires Stream(k, ps, l, tunnel) && i < |ps|
    ensures PacketOk(ps[i], l, tunnel) && KeyOf(ps[i].hdr, tunnel) == k && !Rejected(ps[i], tunnel)
  {
    var a, b := ps[..i], ps[i..];
    assert ps == a + b && b[0] == ps[i];
    JoinDataConcat(a, b, tunnel);
    assert |Data(ps[i], tunnel)| <= |JoinData(b, tunnel)|;
    OnlyAckValid();
  }

  lemma OnlyAckValid()
    ensures 0x10 & !VALID_FLAGS == 0 && 0x10 & VALID_FLAGS != 0
  {}

  lemma FirstGrown(k: TcpKey, p: Mbuf, t: nat, l: Lengths, tunnel: bool)
    requires Stream(k, [p], l, tunnel)
    ensures Grown(k, Fresh(p, t, tunnel), [p], l, tunnel)
  {
    SegmentOk(k, [p], l, tunnel, 0);
    assert [p][0] == p;
    FreshBuilt(p, t, tunnel);
  }

  /** The next packet of the stream is appended. */
  lemma NextGrown(k: TcpKey, it: TcpItem, ps: seq<Mbuf>, p: Mbuf, l: Lengths, tunnel: bool)
    requires Grown(k, it, ps, l, tunnel) && Stream(k, ps + [p], l, tunnel)
    ensures Check(it, p, tunnel) == 1 && CanMerge(it, p, 1, tunnel)
    ensures Grown(k, Merge(it, p, 1, tunnel), ps + [p], l, tunnel)
    ensures Merge(it, p, 1, tunnel).startTime == it.startTime
  {
    var all := ps + [p];
    assert all[|ps|] == p;
    SegmentOk(k, all, l, tunnel, |ps|);
    NextIs(k, it, ps, p, l, tunnel);
    NextFits(k, it, ps, p, l, tunnel);
    MergeBuilt(k, it, ps, p, l, tunnel);
    MergeOk(k, it, p, l, tunnel);
    assert Joined(ps, [p], 1) == all;
  }

  lemma NextIs(k: TcpKey, it: TcpItem, ps: seq<Mbuf>, p: Mbuf, l: Lengths, tunnel: bool)
    requires Grown(k, it, ps, l, tunnel) && Stream(k, ps + [p], l, tunnel) && PacketOk(p, l, tunnel)
    ensures Check(it, p, tunnel) == 1
  {
    var all, z := ps + [p], ps[|ps| - 1];
    assert all[|ps|] == p && all[|ps| - 1] == z && Succeeds(z, p, tunnel) && Segment(k, z, l, tunnel);
    assert Segment(k, all[|ps|], l, tunnel);
    SameOptions(k, all, l, tunnel, |ps|);
    assert all[0] == ps[0] && Alike(k, it, z, tunnel);
    NextStarts(k, it, ps, p, l, tunnel);
    CheckIff(k, it, p, l, tunnel);
  }

  lemma NextStarts(k: TcpKey, it: TcpItem, ps: seq<Mbuf>, p: Mbuf, l: Lengths, tunnel: bool)
    requires Grown(k, it, ps, l, tunnel) && Succeeds(ps[|ps| - 1], p, tunnel)
    requires Segment(k, ps[|ps| - 1], l, tunnel)
    ensures p.hdr.sentSeq == (it.sentSeq + |it.firstseg.data| - Front(it.firstseg.lens, tunnel)) % U32
  {
    RunEnd(ps, tunnel);
    assert |Bytes(it.firstseg, tunnel)| == |JoinBytes(ps, tunnel)|;
  }

  lemma {:induction false} SameOptions(k: TcpKey, ps: seq<Mbuf>, l: Lengths, tunnel: bool, i: nat)
    requires Stream(k, ps, l, tunnel) && i < |ps|
    ensures ps[i].hdr.options == ps[0].hdr.options
  {
    if i > 0 {
      assert Succeeds(ps[i - 1], ps[i], tunnel);
      SameOptions(k, ps, l, tunnel, i - 1);
    }
  }

  lemma NextFits(k: TcpKey, it: TcpItem, ps: seq<Mbuf>, p: Mbuf, l: Lengths, tunnel: bool)
    requires Grown(k, it, ps, l, tunnel) && Stream(k, ps + [p], l, tunnel) && PacketOk(p, l, tunnel)
    ensures CanMerge(it, p, 1, tunnel)
  {
    var all := ps + [p];
    assert all[..|ps|] == ps && all[|ps|] == p && Segment(k, all[|ps|], l, tunnel);
    JoinedLength(ps, p, tunnel);
    GrownLength(k, it, ps, l, tunnel);
    MergeLimits(k, it, p, 1, l, tunnel);
  }

  lemma JoinedLength(ps: seq<Mbuf>, p: Mbuf, tunnel: bool)
    ensures |JoinData(ps + [p], tunnel)| == |JoinData(ps, tunnel)| + |Data(p, tunnel)|
  {
    JoinDataConcat(ps, [p], tunnel);
    assert [p][1..] == [] && JoinData([p], tunnel) == Data(p, tunnel) + [];
  }

  lemma GrownLength(k: TcpKey, it: TcpItem, ps: seq<Mbuf>, l: Lengths, tunnel: bool)
    requires Grown(k, it, ps, l, tunnel)
    ensures |it.firstseg.data| == Front(l, tunnel) + |JoinData(ps, tunnel)| && it.firstseg.segs == JoinSegs(ps)
  {
    SameBytes(ps, tunnel);
  }

  // ----- Runs

  /** The packets of flow `k` that the events bring. */
  function PacketsOf(es: seq<Event>, k: TcpKey, tunnel: bool): seq<Mbuf> {
    if es == [] then [] else PacketOf(es[0], k, tunnel) + PacketsOf(es[1..], k, tunnel)
  }

  function PacketOf(e: Event, k: TcpKey, tunnel: bool): seq<Mbuf> {
    if e.Packet? && KeyOf(e.p.hdr, tunnel) == k then [e.p] else []
  }

  /** The packets of flow `k` arrive from time `since` on, and no flush is for items that old. */
  predicate InTime(e: Event, k: TcpKey, since: nat, ts: nat, tunnel: bool) {
    match e
    case Packet(p, t) => KeyOf(p.hdr, tunnel) == k ==> since <= t <= ts
    case Timeout(due, room) => due < since
  }

  /** The packets of flow `k`. */
  function OfFlow(ms: seq<Mbuf>, k: TcpKey, tunnel: bool): seq<Mbuf> {
    if ms == [] then [] else (if KeyOf(ms[0].hdr, tunnel) == k then [ms[0]] else []) + OfFlow(ms[1..], k, tunnel)
  }

  lemma {:induction false} OfFlowConcat(a: seq<Mbuf>, b: seq<Mbuf>, k: TcpKey, tunnel: bool)
    ensures OfFlow(a + b, k, tunnel) == OfFlow(a, k, tunnel) + OfFlow(b, k, tunnel)
  {
    if a == [] {
      assert a + b == b;
    } else {
      assert (a + b)[1..] == a[1..] + b;
      OfFlowConcat(a[1..], b, k, tunnel);
    }
  }

  /** What the chain of the flow is after the packets `ps` of its stream. */
  ghost predicate Holds(c: seq<TcpItem>, k: TcpKey, ps: seq<Mbuf>, l: Lengths, tunnel: bool, since: nat, ts: nat) {
    if ps == [] then c == [] else |c| == 1 && Grown(k, c[0], ps, l, tunnel) && since <= c[0].startTime <= ts
  }

  lemma StepHolds(c: seq<TcpItem>, k: TcpKey, ps: seq<Mbuf>, p: Mbuf, t: nat, l: Lengths, tunnel: bool, since: nat,
                  ts: nat)
    requires Holds(c, k, ps, l, tunnel, since, ts) && Stream(k, ps + [p], l, tunnel) && since <= t <= ts
    ensures Holds(StepChain(c, p, t, tunnel), k, ps + [p], l, tunnel, since, ts)
    ensures ps != [] ==> Decide(c, p, 0, tunnel).MergeAt?
  {
    DecideStops(c, p, 0, tunnel);
    if ps == [] {
      assert ps + [p] == [p];
      FirstGrown(k, p, t, l, tunnel);
    } else {
      NextGrown(k, c[0], ps, p, l, tunnel);
    }
  }

  /** A packet of another flow leaves the chain as it is. */
  lemma OtherFlow(v: TcpView, p: Mbuf, t: nat, k: TcpKey, tunnel: bool)
    requires Wf(v) && KeyOf(p.hdr, tunnel) != k
    ensures Lookup(Accept(v, p, t, tunnel).view, k) == Lookup(v, k)
  {
    AcceptCases(v, p, t, tunnel);
    var w, s := Scanned(v, p, tunnel), StoreScanned(Scanned(v, p, tunnel), p, t, tunnel);
    ScannedWf(v, p, tunnel);
    LookupSame(v, w, k);
    if s.ret != -1 {
      StoreChain(w, p, t, tunnel);
      StoreElsewhere(w, p, t, k, tunnel);
    }
  }

  lemma StoreElsewhere(v: TcpView, p: Mbuf, t: nat, k: TcpKey, tunnel: bool)
    requires Wf(v) && KeyOf(p.hdr, tunnel) != k
    ensures Lookup(StoreScanned(v, p, t, tunnel).view, k) == Lookup(v, k)
  {
    var key, s := KeyOf(p.hdr, tunnel), StoreScanned(v, p, t, tunnel);
    var f, j := Find(v, key), FirstFree(v);
    if s.view != v {
      assert s.view == v[(if f < |v| then f else j) := s.view[if f < |v| then f else j]];
    }
    LookupSame(v, s.view, k);
  }

  /** A packet of the flow. */
  lemma OwnFlow(v: TcpView, k: TcpKey, ps: seq<Mbuf>, p: Mbuf, t: nat, l: Lengths, tunnel: bool, since: nat, ts: nat)
    requires Wf(v) && Total(v) < |v| && Holds(Lookup(v, k), k, ps, l, tunnel, since, ts)
    requires Stream(k, ps + [p], l, tunnel) && since <= t <= ts
    ensures var s := Accept(v, p, t, tunnel);
      s.ret != -1 && Holds(Lookup(s.view, k), k, ps + [p], l, tunnel, since, ts)
  {
    assert (ps + [p])[|ps|] == p && Segment(k, (ps + [p])[|ps|], l, tunnel);
    SegmentOk(k, ps + [p], l, tunnel, |ps|);
    OnlyAckValid();
    AcceptScans(v, p, t, tunnel);
    assert Scanned(v, p, tunnel) == v;
    StoreKeepsWf(v, k, Fresh(p, t, tunnel), Decide(Lookup(v, k), p, 0, tunnel));
    StoreChain(v, p, t, tunnel);
    StepHolds(Lookup(v, k), k, ps, p, t, l, tunnel, since, ts);
  }

  lemma DrainFacts(ts: nat)
    ensures forall c: seq<TcpItem> :: DrainBy(ts)(c, 0) == Drain([], c)
    ensures forall c: seq<TcpItem>, r: nat :: Shrinks(c, DrainBy(ts)(c, r), r)
  {
    forall c: seq<TcpItem>, r: nat ensures Shrinks(c, DrainBy(ts)(c, r), r) {
      DrainBound(c, ts, r);
    }
  }

  /** The table took the packets `ps` of the stream, and holds them as one item. */
  ghost predicate Took(s: Session, k: TcpKey, ps: seq<Mbuf>, l: Lengths, tunnel: bool, since: nat, ts: nat) {
    Wf(s.view) && Holds(Lookup(s.view, k), k, ps, l, tunnel, since, ts) && OfFlow(s.taken, k, tunnel) == ps
  }

  /** One event. */
  lemma NextTook(s: Session, e: Event, k: TcpKey, ps: seq<Mbuf>, l: Lengths, tunnel: bool, since: nat, ts: nat)
    requires Took(s, k, ps, l, tunnel, since, ts) && Total(s.view) < |s.view|
    requires Stream(k, ps + PacketOf(e, k, tunnel), l, tunnel) && InTime(e, k, since, ts, tunnel)
    ensures Took(Next(s, e, tunnel), k, ps + PacketOf(e, k, tunnel), l, tunnel, since, ts)
  {
    NextWf(s, e, tunnel);
    match e
    case Packet(p, t) => PacketTook(s, p, t, k, ps, l, tunnel, since, ts);
    case Timeout(due, room) =>
      assert ps + [] == ps;
      DrainFacts(due);
      FlushAt(s.view, room, DrainBy(due), k);
      if Find(s.view, k) == |s.view| {
        assert Lookup(s.view, k) == [];
      }
  }

  lemma PacketTook(s: Session, p: Mbuf, t: nat, k: TcpKey, ps: seq<Mbuf>, l: Lengths, tunnel: bool, since: nat, ts: nat)
    requires Took(s, k, ps, l, tunnel, since, ts) && Total(s.view) < |s.view|
    requires var e := Packet(p, t); Stream(k, ps + PacketOf(e, k, tunnel), l, tunnel) && InTime(e, k, since, ts, tunnel)
    ensures var s' := Next(s, Packet(p, t), tunnel); var all := ps + PacketOf(Packet(p, t), k, tunnel);
      Holds(Lookup(s'.view, k), k, all, l, tunnel, since, ts) && OfFlow(s'.taken, k, tunnel) == all
  {
    OfFlowConcat(s.taken, [p], k, tunnel);
    OneOfFlow(p, t, k, tunnel);
    if KeyOf(p.hdr, tunnel) == k {
      OwnFlow(s.view, k, ps, p, t, l, tunnel, since, ts);
    } else {
      assert ps + [] == ps;
      OtherFlow(s.view, p, t, k, tunnel);
    }
  }

  lemma OneOfFlow(p: Mbuf, t: nat, k: TcpKey, tunnel: bool)
    ensures OfFlow([p], k, tunnel) == PacketOf(Packet(p, t), k, tunnel)
  {
    assert [p][1..] == [];
  }

  lemma {:induction false} StreamRun(s: Session, es: seq<Event>, k: TcpKey, ps: seq<Mbuf>, l: Lengths, tunnel: bool,
                                     since: nat, ts: nat)
    requires Took(s, k, ps, l, tunnel, since, ts) && Total(s.view) + |es| <= |s.view|
    requires Stream(k, ps + PacketsOf(es, k, tunnel), l, tunnel)
    requires forall i :: 0 <= i < |es| ==> InTime(es[i], k, since, ts, tunnel)
    ensures Took(RunAll(s, es, tunnel), k, ps + PacketsOf(es, k, tunnel), l, tunnel, since, ts)
    decreases |es|
  {
    if es == [] {
      assert ps + [] == ps;
    } else {
      var x, rest, s' := PacketOf(es[0], k, tunnel), PacketsOf(es[1..], k, tunnel), Next(s, es[0], tunnel);
      SplitStream(k, ps, x, rest, l, tunnel);
      assert InTime(es[0], k, since, ts, tunnel);
      NextTook(s, es[0], k, ps, l, tunnel, since, ts);
      NextWf(s, es[0], tunnel);
      assert forall i :: 0 <= i < |es[1..]| ==> es[1..][i] == es[i + 1];
      StreamRun(s', es[1..], k, ps + x, l, tunnel, since, ts);
    }
  }

  lemma SplitStream(k: TcpKey, ps: seq<Mbuf>, x: seq<Mbuf>, rest: seq<Mbuf>, l: Lengths, tunnel: bool)
    requires Stream(k, ps + (x + rest), l, tunnel)
    ensures (ps + x) + rest == ps + (x + rest) && Stream(k, ps + x, l, tunnel)
  {
    assert (ps + (x + rest))[..|ps + x|] == ps + x;
    StreamFront(k, ps + (x + rest), |ps + x|, l, tunnel);
  }

  // ----- The stream comes out

  lemma {:induction false} EmittedOfFlow(out: seq<Tagged<TcpKey, TcpItem>>, k: TcpKey, lens: FlowLens, tunnel: bool)
    requires AllOut(out, OkBy(lens, tunnel))
    ensures OfFlow(Emitted(out, FinishBy(tunnel)), k, tunnel) == Finished(OfKey(out, k), FinishBy(tunnel))
  {
    if out != [] {
      var e := Emitted(out, FinishBy(tunnel));
      assert e[0] == Finish(out[0].item, tunnel) && e[1..] == Emitted(out[1..], FinishBy(tunnel));
      assert OkBy(lens, tunnel)(out[0].key, out[0].item);
      FinishIn(out[0].key, out[0].item, lens, tunnel);
      assert forall i :: 0 <= i < |out[1..]| ==> out[1..][i] == out[i + 1];
      EmittedOfFlow(out[1..], k, lens, tunnel);
      FinishedMore(OfKey(out[1..], k), out[0].item, tunnel);
    }
  }

  lemma FinishedMore(c: seq<TcpItem>, x: TcpItem, tunnel: bool)
    ensures Finished([x] + c, FinishBy(tunnel)) == [Finish(x, tunnel)] + Finished(c, FinishBy(tunnel))
  {}

  /** One packet with the payload and the buffers of the packets `ps`, at the sequence number
      of the first, and with true lengths if it is of more than one. */
  ghost predicate Carried(k: TcpKey, m: Mbuf, ps: seq<Mbuf>, l: Lengths, tunnel: bool) {
    && ps != [] && KeyOf(m.hdr, tunnel) == k && m.lens == l && m.hdr.sentSeq == ps[0].hdr.sentSeq
    && Front(l, tunnel) <= |m.data| && m.data[Front(l, tunnel)..] == JoinData(ps, tunnel) && m.segs == JoinSegs(ps)
    && (|ps| > 1 ==> HeaderTrue(m, tunnel))
  }

  lemma GrownCarries(k: TcpKey, it: TcpItem, ps: seq<Mbuf>, l: Lengths, tunnel: bool)
    requires Grown(k, it, ps, l, tunnel) && Stream(k, ps, l, tunnel)
    ensures Carried(k, Finish(it, tunnel), ps, l, tunnel)
  {
    FinishOk(k, it, l, tunnel);
    SameBytes(ps, tunnel);
    forall i | 0 <= i < |ps| ensures ps[i].hdr.tcpFlags == ACK_FLAG {
      assert Segment(k, ps[i], l, tunnel);
    }
    assert AckOnly(ps);
  }

  /** From a new table with a slot for each event, let the packets of a stream arrive in
      order, between any packets of other flows and flushes that are not yet for them. All
      of them are taken. The flush for them, with room for the table, puts out one packet of
      the flow, which carries all their payload; and it leaves nothing of the flow behind. */
  lemma StreamDelivered(n: nat, es: seq<Event>, k: TcpKey, l: Lengths, tunnel: bool, since: nat, ts: nat, room: nat)
    requires var ps := PacketsOf(es, k, tunnel); ps != [] && Stream(k, ps, l, tunnel)
    requires |es| <= n <= room && forall i :: 0 <= i < |es| ==> InTime(es[i], k, since, ts, tunnel)
    ensures var s := RunAll(NewTable(n), es, tunnel); var r := Flush(s.view, room, DrainBy(ts));
      var o := OfFlow(Emitted(r.out, FinishBy(tunnel)), k, tunnel); var ps := PacketsOf(es, k, tunnel);
      && OfFlow(s.taken, k, tunnel) == ps && |o| == 1 && Carried(k, o[0], ps, l, tunnel) && Lookup(r.view, k) == []
  {
    StreamStored(n, es, k, l, tunnel, since, ts);
    FlushDelivers(RunAll(NewTable(n), es, tunnel).view, k, PacketsOf(es, k, tunnel), l, tunnel, since, ts, room);
  }

  lemma StreamStored(n: nat, es: seq<Event>, k: TcpKey, l: Lengths, tunnel: bool, since: nat, ts: nat)
    requires var ps := PacketsOf(es, k, tunnel); Stream(k, ps, l, tunnel)
    requires |es| <= n && forall i :: 0 <= i < |es| ==> InTime(es[i], k, since, ts, tunnel)
    ensures var s := RunAll(NewTable(n), es, tunnel); var ps := PacketsOf(es, k, tunnel);
      Took(s, k, ps, l, tunnel, since, ts) && Total(s.view) <= n && ViewOk(s.view, NoLens(), tunnel)
  {
    var s := NewTable(n);
    NewOwned(n, NoLens(), tunnel);
    RunBalanced(s, es, NoLens(), tunnel);
    RunWf(s, es, tunnel);
    NewTook(n, k, l, tunnel, since, ts);
    StreamFrom(s, es, k, [], l, tunnel, since, ts);
  }

  lemma NewTook(n: nat, k: TcpKey, l: Lengths, tunnel: bool, since: nat, ts: nat)
    ensures Took(NewTable(n), k, [], l, tunnel, since, ts) && Total(NewTable(n).view) == 0
  {
    EmptyHolds(NewTable(n).view, ItemBuffers);
  }

  lemma StreamFrom(s: Session, es: seq<Event>, k: TcpKey, ps: seq<Mbuf>, l: Lengths, tunnel: bool, since: nat, ts: nat)
    requires ps == [] && Took(s, k, ps, l, tunnel, since, ts) && Total(s.view) + |es| <= |s.view|
    requires Stream(k, PacketsOf(es, k, tunnel), l, tunnel)
    requires forall i :: 0 <= i < |es| ==> InTime(es[i], k, since, ts, tunnel)
    ensures Took(RunAll(s, es, tunnel), k, PacketsOf(es, k, tunnel), l, tunnel, since, ts)
  {
    assert ps + PacketsOf(es, k, tunnel) == PacketsOf(es, k, tunnel);
    StreamRun(s, es, k, ps, l, tunnel, since, ts);
  }

  /** No header lengths are known. */
  function NoLens(): FlowLens { (x: TcpKey) => None }

  lemma FlushDelivers(v: TcpView, k: TcpKey, ps: seq<Mbuf>, l: Lengths, tunnel: bool, since: nat, ts: nat, room: nat)
    requires Wf(v) && ViewOk(v, NoLens(), tunnel) && Total(v) <= room && ps != []
    requires Stream(k, ps, l, tunnel) && Holds(Lookup(v, k), k, ps, l, tunnel, since, ts)
    ensures var r := Flush(v, room, DrainBy(ts)); var o := OfFlow(Emitted(r.out, FinishBy(tunnel)), k, tunnel);
      |o| == 1 && Carried(k, o[0], ps, l, tunnel) && Lookup(r.view, k) == []
  {
    var c, left := Lookup(v, k), RoomAt(v, room, DrainBy(ts), k);
    DrainFacts(ts);
    FlushAt(v, room, DrainBy(ts), k);
    FlushConserves(v, room, ts, NoLens(), tunnel);
    EmittedOfFlow(Flush(v, room, DrainBy(ts)).out, k, NoLens(), tunnel);
    OneDrained(c, ts, left);
    GrownCarries(k, c[0], ps, l, tunnel);
  }

  lemma OneDrained(c: seq<TcpItem>, ts: nat, room: nat)
    requires |c| == 1 && c[0].startTime <= ts && room > 0
    ensures DrainChain(c, ts, room) == Drain(c, [])
  {
    assert c[1..] == [] && DrainChain([], ts, room - 1) == Drain([], []);
  }
}
