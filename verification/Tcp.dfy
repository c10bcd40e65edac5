/**
  Reassembly of TCP/IPv4 packets: tunnelled ones (`gro_gtp_tcp4.c`; `gro_vxlan_tcp4.c`
  is the same code with another tunnel header in the key), and plain ones
  (`gro_tcp4.c` with the helpers of `gro_tcp.h` and `gro_tcp_internal.h`). The flag
  `tunnel` tells which.
 */
module Tcp {
  import opened Basics
  import opened Packets
  import opened FlowTable
  import opened ItemTable
  import opened FlushLoop

  const FIN_FLAG: byte := 0x01
  const PSH_FLAG: byte := 0x08
  const ACK_FLAG: byte := 0x10
  const VALID_FLAGS := FIN_FLAG | PSH_FLAG | ACK_FLAG
  const MAX_SEGS := 20

  datatype TcpKey = TcpKey(
    ethSrc: nat, ethDst: nat, recvAck: nat, srcPort: nat, dstPort: nat, ipSrc: nat, ipDst: nat, tunnel: nat,
    outerEthSrc: nat, outerEthDst: nat, outerIpSrc: nat, outerIpDst: nat, outerSrcPort: nat, outerDstPort: nat)

  datatype TcpItem = TcpItem(
    firstseg: Mbuf, startTime: nat, sentSeq: uint32, ipId: uint16, nbMerged: uint16, isAtomic: bool,
    outerIpId: uint16, outerIsAtomic: bool)

  type TcpView = seq<Flow<TcpKey, TcpItem>>

  /** The outer fields are part of the key of tunnelled packets only. */
  function KeyOf(h: Header, tunnel: bool): TcpKey {
    var a := h.addr;
    if tunnel then
      TcpKey(a.ethSrc, a.ethDst, a.recvAck, a.srcPort, a.dstPort, a.ipSrc, a.ipDst, a.tunnel,
             a.outerEthSrc, a.outerEthDst, a.outerIpSrc, a.outerIpDst, a.outerSrcPort, a.outerDstPort)
    else
      TcpKey(a.ethSrc, a.ethDst, a.recvAck, a.srcPort, a.dstPort, a.ipSrc, a.ipDst, 0, 0, 0, 0, 0, 0, 0)
  }

  function L2Offset(l: Lengths, tunnel: bool): nat { if tunnel then l.outerL2 + l.outerL3 else 0 }

  /** Where the TCP header starts. */
  function TcpStart(l: Lengths, tunnel: bool): nat { L2Offset(l, tunnel) + l.l2 + l.l3 }

  function HdrLen(l: Lengths, tunnel: bool): nat { TcpStart(l, tunnel) + l.l4 }

  predicate InvalidTcpHdrLen(l: Lengths) { l.l4 < 20 || l.l4 > 60 }

  function DataLen(p: Mbuf, tunnel: bool): uint16 { (|p.data| - HdrLen(p.lens, tunnel)) % U16 }

  /** The IPv4 ID of a packet whose Don't Fragment bit is set is ignored. */
  function IpId(h: Header): uint16 { if h.df then 0 else h.ipId }

  function OuterIpId(h: Header): uint16 { if h.outerDf then 0 else h.outerIpId }

  function Fresh(p: Mbuf, startTime: nat, tunnel: bool): TcpItem {
    if tunnel then TcpItem(p, startTime, p.hdr.sentSeq, IpId(p.hdr), 1, p.hdr.df, OuterIpId(p.hdr), p.hdr.outerDf)
    else TcpItem(p, startTime, p.hdr.sentSeq, IpId(p.hdr), 1, p.hdr.df, 0, true)
  }

  /** `check_seq_option`: positive if the packet continues the item, negative if the
      item continues the packet. */
  function CheckSeqOption(it: TcpItem, p: Mbuf, tunnel: bool): int {
    var orig := it.firstseg;
    if p.lens.l4 != orig.lens.l4 || (p.lens.l4 > 20 && p.hdr.options != orig.hdr.options) then 0
    else if it.isAtomic != p.hdr.df then 0
    else if p.hdr.sentSeq == Wrap(it.sentSeq + DataLen(orig, tunnel)) && (p.hdr.df || IpId(p.hdr) == it.ipId + 1) then 1
    else if Wrap(p.hdr.sentSeq + DataLen(p, tunnel)) == it.sentSeq
         && (p.hdr.df || IpId(p.hdr) + it.nbMerged == it.ipId) then -1
    else 0
  }

  /** `check_gtp_seq_option` adds the outer IPv4 ID. */
  function Check(it: TcpItem, p: Mbuf, tunnel: bool): int {
    if !tunnel then CheckSeqOption(it, p, false)
    else if it.outerIsAtomic != p.hdr.outerDf then 0
    else
      var cmp := CheckSeqOption(it, p, true);
      if cmp > 0 && (p.hdr.outerDf || OuterIpId(p.hdr) == it.outerIpId + 1) then 1
      else if cmp < 0 && (p.hdr.outerDf || OuterIpId(p.hdr) + it.nbMerged == it.outerIpId) then -1
      else 0
  }

  /** Where `merge_two_tcp_packets` takes the TCP header of both packets to start: the outer
      lengths are those of the packet `p` that is merged, the others those of the head. */
  function MergeStart(head: Mbuf, p: Mbuf, tunnel: bool): nat {
    L2Offset(p.lens, tunnel) + head.lens.l2 + head.lens.l3
  }

  function MergeHdr(head: Mbuf, p: Mbuf, tunnel: bool): nat { MergeStart(head, p, tunnel) + head.lens.l4 }

  /** The two limits on a merged packet: its IP length and the segments of its head. */
  predicate MergeFits(head: Mbuf, tail: Mbuf, p: Mbuf, tunnel: bool) {
    var l2Len := if L2Offset(p.lens, tunnel) > 0 then head.lens.outerL2 else head.lens.l2;
    && Wrap(|head.data| - l2Len + |tail.data| - MergeHdr(head, p, tunnel)) <= MAX_IP_PKT_LENGTH
    && |head.segs| < MAX_SEGS
  }

  predicate CanMerge(it: TcpItem, p: Mbuf, cmp: int, tunnel: bool) {
    if cmp > 0 then MergeFits(it.firstseg, p, p, tunnel) else MergeFits(p, it.firstseg, p, tunnel)
  }

  function OrFlags(data: seq<byte>, at: nat, flags: byte): seq<byte> {
    if at < |data| then data[at := data[at] | flags] else data
  }

  /** The packet after `merge_two_tcp_packets` set its flags. The flags byte is looked up
      relative to the first byte the packet has left, although an appended packet has
      lost its headers by then. */
  function Flagged(p: Mbuf, cmp: int, head: Mbuf, tunnel: bool): Mbuf {
    if p.hdr.tcpFlags == ACK_FLAG then p
    else
      var lost := if cmp > 0 && MergeHdr(head, p, tunnel) <= |p.data| then MergeHdr(head, p, tunnel) else 0;
      p.(data := OrFlags(p.data, lost + MergeStart(head, p, tunnel) + 13, p.hdr.tcpFlags))
  }

  function Merge(it: TcpItem, p: Mbuf, cmp: int, tunnel: bool): TcpItem {
    var head := if cmp > 0 then it.firstseg else p;
    var q := Flagged(p, cmp, head, tunnel);
    var n := (it.nbMerged + 1) % U16;
    if cmp > 0 then
      it.(firstseg := Chain(it.firstseg, q, MergeHdr(head, p, tunnel)), ipId := IpId(p.hdr), nbMerged := n,
          outerIpId := if tunnel then OuterIpId(p.hdr) else it.outerIpId)
    else
      it.(firstseg := Chain(q, it.firstseg, MergeHdr(head, p, tunnel)), ipId := IpId(p.hdr), nbMerged := n,
          sentSeq := p.hdr.sentSeq)
  }

  /** What scanning the chain from position `k` on decides about packet `p`. A packet
      whose merge is refused goes behind the item before it (tunnelled) or behind the
      neighbour itself. */
  function Decide(c: seq<TcpItem>, p: Mbuf, k: nat, tunnel: bool): (d: Decision<TcpItem>)
    requires k <= |c|
    ensures Applies(d, |c|)
    decreases |c| - k
  {
    if k == |c| then InsertAt(k)
    else
      var cmp := Check(c[k], p, tunnel);
      if cmp != 0 then
        if CanMerge(c[k], p, cmp, tunnel) then MergeAt(k, Merge(c[k], p, cmp, tunnel))
        else InsertAt(if k == 0 || !tunnel then k + 1 else k)
      else Decide(c, p, k + 1, tunnel)
  }

  /** The scan loop, which both reassembly functions have. */
  method Scan(p: Mbuf, tbl: Table<TcpKey, TcpItem>, i: nat, startTime: nat, tunnel: bool) returns (ret: int)
    requires tbl.Valid() && i < |tbl.view| && tbl.view[i].Flow? && Find(tbl.view, tbl.view[i].key) == i
    modifies tbl, tbl.items, tbl.flows
    ensures tbl.Valid()
    ensures Stored(tbl.view, ret) ==
      Store(old(tbl.view), old(tbl.view[i].key), Fresh(p, startTime, tunnel),
        Decide(old(tbl.view[i].chain), p, 0, tunnel))
  {
    var cmp, cur, prev, k := Walk(p, tbl, i, tunnel);
    tbl.Linked(i, k);
    if cur == INVALID_ARRAY_INDEX {
      ret := tbl.AddBehind(i, prev, k - 1, Fresh(p, startTime, tunnel));
    } else if CanMerge(tbl.items[cur].item, p, cmp, tunnel) {
      tbl.Change(i, cur, k, Merge(tbl.items[cur].item, p, cmp, tunnel));
      ret := 1;
    } else if tunnel {
      ret := tbl.AddBehind(i, prev, if k == 0 then 0 else k - 1, Fresh(p, startTime, tunnel));
    } else {
      ret := tbl.AddBehind(i, cur, k, Fresh(p, startTime, tunnel));
    }
  }

  /** The loop of the scan: `cur` is the neighbour it stops at, at position `k` of the chain. */
  method Walk(p: Mbuf, tbl: Table<TcpKey, TcpItem>, i: nat, tunnel: bool)
    returns (cmp: int, cur: nat, prev: nat, ghost k: nat)
    requires tbl.Valid() && i < |tbl.view| && tbl.view[i].Flow?
    ensures var c := tbl.view[i].chain;
      && |c| == |tbl.chains[i]| > 0 && k <= |c| && cur == Link(tbl.chains[i], k)
      && prev == tbl.chains[i][if k == 0 then 0 else k - 1]
      && Decide(c, p, 0, tunnel) == Decide(c, p, k, tunnel)
      && (k < |c| ==> cmp == Check(c[k], p, tunnel) != 0)
  {
    tbl.Linked(i, 0);
    cur := tbl.flows[i].start;
    prev := cur;
    cmp, k := 0, 0;
    ghost var c := tbl.view[i].chain;
    while cur != INVALID_ARRAY_INDEX
      invariant k <= |c| && cur == Link(tbl.chains[i], k)
      invariant prev == tbl.chains[i][if k == 0 then 0 else k - 1]
      invariant Decide(c, p, 0, tunnel) == Decide(c, p, k, tunnel)
      decreases |c| - k
    {
      tbl.Linked(i, k);
      cmp := Check(tbl.items[cur].item, p, tunnel);
      if cmp != 0 {
        return;
      }
      prev := cur;
      cur := tbl.items[cur].next;
      k := k + 1;
      tbl.Linked(i, k);
    }
    tbl.Linked(i, k);
  }

  // ----- Tunnelled packets

  predicate TunnelRejected(p: Mbuf) {
    InvalidTcpHdrLen(p.lens) || p.hdr.tcpFlags != ACK_FLAG || |p.data| <= HdrLen(p.lens, true)
  }

  /** The effect of `gro_gtp_tcp4_reassemble`, and its result. */
  function TunnelAccept(v: TcpView, p: Mbuf, startTime: nat): Stored<TcpKey, TcpItem> {
    if TunnelRejected(p) then Stored(v, -1)
    else
      var key := KeyOf(p.hdr, true);
      Store(v, key, Fresh(p, startTime, true), Decide(Lookup(v, key), p, 0, true))
  }

  method TunnelReassemble(p: Mbuf, tbl: Table<TcpKey, TcpItem>, startTime: nat) returns (ret: int)
    requires tbl.Valid()
    modifies tbl, tbl.items, tbl.flows
    ensures tbl.Valid() && Stored(tbl.view, ret) == TunnelAccept(old(tbl.view), p, startTime)
  {
    if InvalidTcpHdrLen(p.lens) {
      return -1;
    }
    if p.hdr.tcpFlags != ACK_FLAG {
      return -1;
    }
    if |p.data| - HdrLen(p.lens, true) <= 0 {
      return -1;
    }
    var find, i := tbl.Search(KeyOf(p.hdr, true));
    if find {
      ret := Scan(p, tbl, i, startTime, true);
    } else {
      ret := tbl.AddFlow(KeyOf(p.hdr, true), Fresh(p, startTime, true));
    }
  }

  // ----- Plain packets

  /** The packet without the padding behind the length its IPv4 header gives. */
  function Trimmed(p: Mbuf): Mbuf {
    if |p.data| > p.hdr.totalLen + p.lens.l2 then p.(data := p.data[..p.hdr.totalLen + p.lens.l2]) else p
  }

  /** The packet as `gro_tcp4_reassemble` leaves it: trimmed, if it gets that far. */
  function AfterTrim(p: Mbuf): Mbuf {
    if InvalidTcpHdrLen(p.lens) || p.hdr.tcpFlags & !VALID_FLAGS != 0 then p else Trimmed(p)
  }

  /** Packets refused before the table is looked at, already trimmed. */
  predicate PlainRejected(p: Mbuf) {
    InvalidTcpHdrLen(p.lens) || p.hdr.tcpFlags & !VALID_FLAGS != 0 || |p.data| <= HdrLen(p.lens, false)
  }

  /** The table after `gro_tcp4_reassemble` made the head of the packet's flow due, as
      it does for a packet with more flags than ACK. */
  function HeadDue(v: TcpView, p: Mbuf): TcpView {
    var i := Find(v, KeyOf(p.hdr, false));
    if i < |v| && v[i].chain != [] && p.hdr.tcpFlags != ACK_FLAG then
      v[i := Flow(v[i].key, v[i].chain[0 := v[i].chain[0].(startTime := 0)])]
    else v
  }

  /** The effect of `gro_tcp4_reassemble` on a trimmed packet, and its result. */
  function PlainAccept(v: TcpView, p: Mbuf, startTime: nat): Stored<TcpKey, TcpItem> {
    var key := KeyOf(p.hdr, false);
    var it := Fresh(p, startTime, false);
    if PlainRejected(p) then Stored(v, -1)
    else if Find(v, key) < |v| then
      if p.hdr.tcpFlags & VALID_FLAGS == 0 then Stored(v, -1)
      else
        var v' := HeadDue(v, p);
        Store(v', key, it, Decide(Lookup(v', key), p, 0, false))
    else if p.hdr.tcpFlags == ACK_FLAG then Store(v, key, it, Decide(Lookup(v, key), p, 0, false))
    else Stored(v, -1)
  }

  /** `q` is the packet as it is afterwards, which the caller gets back if it is refused. */
  method PlainReassemble(p: Mbuf, tbl: Table<TcpKey, TcpItem>, startTime: nat) returns (ret: int, q: Mbuf)
    requires tbl.Valid()
    modifies tbl, tbl.items, tbl.flows
    ensures tbl.Valid() && Stored(tbl.view, ret) == PlainAccept(old(tbl.view), q, startTime)
    ensures q == AfterTrim(p)
  {
    q := p;
    if InvalidTcpHdrLen(p.lens) {
      return -1, q;
    }
    if p.hdr.tcpFlags & !VALID_FLAGS != 0 {
      return -1, q;
    }
    q := Trimmed(p);
    if |q.data| - HdrLen(q.lens, false) <= 0 {
      return -1, q;
    }
    var key := KeyOf(q.hdr, false);
    var find, i := tbl.Search(key);
    if find {
      if q.hdr.tcpFlags & VALID_FLAGS == 0 {
        return -1, q;
      }
      tbl.Linked(i, 0);
      if q.hdr.tcpFlags != ACK_FLAG {
        var start := tbl.flows[i].start;
        tbl.Change(i, start, 0, tbl.items[start].item.(startTime := 0));
        FindUpdated(old(tbl.view), i, tbl.view, key);
      }
      ret := Scan(q, tbl, i, startTime, false);
    } else if q.hdr.tcpFlags == ACK_FLAG {
      ret := tbl.AddFlow(key, Fresh(q, startTime, false));
    } else {
      ret := -1;
    }
  }

  // ----- Flushing

  /** What a flush takes from one chain: due items from the front, up to the first
      that is not due. */
  function DrainChain(c: seq<TcpItem>, ts: nat, room: nat): Drain<TcpItem> {
    if c == [] || room == 0 || c[0].startTime > ts then Drain([], c)
    else
      var d := DrainChain(c[1..], ts, room - 1);
      Drain([c[0]] + d.out, d.rest)
  }

  function DrainBy(ts: nat): Drainer<TcpItem> {
    (c: seq<TcpItem>, room: nat) => DrainChain(c, ts, room)
  }

  lemma {:induction false} DrainBound(c: seq<TcpItem>, ts: nat, room: nat)
    ensures var d := DrainChain(c, ts, room); Shrinks(c, d, room) && c == d.out + d.rest
  {
    if c != [] && room > 0 && c[0].startTime <= ts {
      DrainBound(c[1..], ts, room - 1);
      assert c == [c[0]] + c[1..];
    }
  }

  /** `update_gtp_header` and `update_header`, in the 16-bit arithmetic of the code. */
  function UpdateHeader(m: Mbuf, tunnel: bool): Mbuf {
    if tunnel then
      var ip := (|m.data| - m.lens.outerL2) % U16;
      var udp := (ip - m.lens.outerL3) % U16;
      m.(hdr := m.hdr.(outerTotalLen := ip, outerUdpLen := udp, totalLen := (udp - m.lens.l2) % U16))
    else m.(hdr := m.hdr.(totalLen := (|m.data| - m.lens.l2) % U16))
  }

  /** The packet put out for an item. */
  function Finish(it: TcpItem, tunnel: bool): Mbuf {
    if it.nbMerged > 1 then UpdateHeader(it.firstseg, tunnel) else it.firstseg
  }

  function FinishBy(tunnel: bool): TcpItem -> Mbuf {
    (it: TcpItem) => Finish(it, tunnel)
  }

  /** One round of the flush loop: if the head of flow `i` is due, put it out. */
  method DrainOne(tbl: Table<TcpKey, TcpItem>, i: nat, ts: nat, tunnel: bool, out: array<Mbuf>, pos: nat)
    returns (due: bool)
    requires tbl.Valid() && i < |tbl.view| && tbl.view[i].Flow? && pos < out.Length
    modifies tbl, tbl.items, tbl.flows, out
    ensures tbl.Valid() && old(tbl.view[i].chain) != []
    ensures due <==> old(tbl.view[i].chain)[0].startTime <= ts
    ensures !due ==> tbl.view == old(tbl.view) && out[..] == old(out[..])
    ensures due ==> tbl.view == old(tbl.view)[i := SlotFor(old(tbl.view[i].key), old(tbl.view[i].chain)[1..])]
    ensures due ==> out[..] == old(out[..])[pos := Finish(old(tbl.view[i].chain)[0], tunnel)]
  {
    tbl.Linked(i, 0);
    var j := tbl.flows[i].start;
    due := tbl.items[j].item.startTime <= ts;
    if due {
      out[pos] := Finish(tbl.items[j].item, tunnel);
      var _ := tbl.RemoveFirst(i);
    }
  }

  method DrainRound(tbl: Table<TcpKey, TcpItem>, ghost v0: TcpView, i: nat, out: array<Mbuf>, ghost out0: seq<Mbuf>,
                    at: nat,
                    ghost d: Drain<TcpItem>, ts: nat, tunnel: bool, room: nat, n: nat, ghost c: seq<TcpItem>)
    returns (due: bool, ghost c': seq<TcpItem>)
    requires Drains(tbl, v0, i, out, out0, at, d, DrainBy(ts), FinishBy(tunnel), room, n, c) && c != [] && n < room
    modifies tbl, tbl.items, tbl.flows, out
    ensures due <==> c[0].startTime <= ts
    ensures Drains(tbl, v0, i, out, out0, at, d, DrainBy(ts), FinishBy(tunnel), room, if due then n + 1 else n, c')
    ensures if due then |c'| < |c| else c' == c
  {
    due := DrainOne(tbl, i, ts, tunnel, out, at + n);
    c' := c;
    if due {
      DrainStep(d, DrainBy(ts), room, n, c, c);
      FillNext(out0, at, Finished(d.out, FinishBy(tunnel)), n);
      c' := c[1..];
      UpdateTwice(v0, i, SlotFor(v0[i].key, c), SlotFor(v0[i].key, c'));
    }
  }

  /** The loop over one flow in the flush functions, writing to `out` from `at` on. */
  method DrainFlow(tbl: Table<TcpKey, TcpItem>, i: nat, ts: nat, tunnel: bool, out: array<Mbuf>, at: nat, room: nat)
    returns (n: nat)
    requires tbl.Valid() && i < |tbl.view| && tbl.view[i].Flow? && at + room <= out.Length && room > 0
    modifies tbl, tbl.items, tbl.flows, out
    ensures tbl.Valid()
    ensures var d := DrainChain(old(tbl.view[i].chain), ts, room);
      && n == |d.out| <= room
      && tbl.view == old(tbl.view)[i := SlotFor(old(tbl.view[i].key), d.rest)]
      && out[..] == Written(old(out[..]), at, Finished(d.out, FinishBy(tunnel)))
  {
    ghost var d := DrainChain(tbl.view[i].chain, ts, room);
    DrainBound(tbl.view[i].chain, ts, room);
    ghost var c, v0, out0 := tbl.view[i].chain, tbl.view, out[..];
    tbl.Headed(i);
    tbl.Linked(i, 0);
    n := 0;
    while n < room && tbl.flows[i].start != INVALID_ARRAY_INDEX
      invariant Drains(tbl, v0, i, out, out0, at, d, DrainBy(ts), FinishBy(tunnel), room, n, c)
      invariant tbl.flows[i].start == INVALID_ARRAY_INDEX <==> c == []
      decreases |c|
    {
      var due;
      due, c := DrainRound(tbl, v0, i, out, out0, at, d, ts, tunnel, room, n, c);
      tbl.Headed(i);
      if !due {
        break;
      }
      n := n + 1;
    }
    DrainEnds(tbl, v0, i, out, out0, at, d, DrainBy(ts), FinishBy(tunnel), room, n, c);
  }

  /** One flow of the outer flush loop. */
  method FlushRound(tbl: Table<TcpKey, TcpItem>, ghost v0: TcpView, out: array<Mbuf>, ghost out0: seq<Mbuf>, at: nat,
                    ghost r: Flushed<TcpKey, TcpItem>, ts: nat, tunnel: bool, room: nat, i: nat, k: nat)
    returns (n: nat)
    requires Flushes(tbl, v0, out, out0, at, r, DrainBy(ts), FinishBy(tunnel), room, i, k) && i < |v0| && k < room
    modifies tbl, tbl.items, tbl.flows, out
    ensures Flushes(tbl, v0, out, out0, at, r, DrainBy(ts), FinishBy(tunnel), room, i + 1, k + n)
  {
    tbl.Headed(i);
    n := 0;
    FlushSkips(tbl, v0, out, out0, at, r, DrainBy(ts), FinishBy(tunnel), room, i, k, n);
    if tbl.flows[i].start == INVALID_ARRAY_INDEX {
      return;
    }
    ghost var v, s, d := tbl.view, out[..], DrainChain(v0[i].chain, ts, room - k);
    DrainBound(v0[i].chain, ts, room - k);
    n := DrainFlow(tbl, i, ts, tunnel, out, at + k, room - k);
    FlushMoves(tbl, v0, out, out0, at, r, DrainBy(ts), FinishBy(tunnel), room, i, k, v, s, d, n);
  }

  /** `gro_gtp_tcp4_tbl_timeout_flush` and `gro_tcp4_tbl_timeout_flush`, writing to
      `out` from index `at` on. */
  method TimeoutFlush(tbl: Table<TcpKey, TcpItem>, ts: nat, tunnel: bool, out: array<Mbuf>, at: nat, nbOut: nat)
    returns (k: nat)
    requires tbl.Valid() && at + nbOut <= out.Length && (nbOut > 0 || tbl.flowNum == 0)
    modifies tbl, tbl.items, tbl.flows, out
    ensures tbl.Valid()
    ensures var r := Flush(old(tbl.view), nbOut, DrainBy(ts));
      && tbl.view == r.view && k == |r.out| <= nbOut
      && out[..] == Written(old(out[..]), at, Emitted(r.out, FinishBy(tunnel)))
  {
    ghost var v0, out0, r := tbl.view, out[..], Flush(tbl.view, nbOut, DrainBy(ts));
    FlushStarts(tbl, out, at, ts, tunnel, nbOut);
    k := 0;
    var i := 0;
    while i < tbl.maxFlowNum && k < nbOut
      invariant Flushes(tbl, v0, out, out0, at, r, DrainBy(ts), FinishBy(tunnel), nbOut, i, k)
    {
      if tbl.flowNum == 0 {
        break;
      }
      var n := FlushRound(tbl, v0, out, out0, at, r, ts, tunnel, nbOut, i, k);
      k, i := k + n, i + 1;
    }
    FlushEnds(tbl, v0, out, out0, at, r, DrainBy(ts), FinishBy(tunnel), nbOut, i, k);
  }

  lemma FlushStarts(tbl: Table<TcpKey, TcpItem>, out: array<Mbuf>, at: nat, ts: nat, tunnel: bool, nbOut: nat)
    requires tbl.Valid() && at + nbOut <= out.Length
    ensures var r := Flush(tbl.view, nbOut, DrainBy(ts));
      Flushes(tbl, tbl.view, out, out[..], at, r, DrainBy(ts), FinishBy(tunnel), nbOut, 0, 0)
  {
    DrainBounds(ts);
    FlushBegins(tbl, out, at, DrainBy(ts), FinishBy(tunnel), nbOut);
  }

  lemma DrainBounds(ts: nat)
    ensures forall c, n: nat :: c != [] ==> Shrinks(c, DrainBy(ts)(c, n), n)
  {
    forall c, n: nat ensures Shrinks(c, DrainBy(ts)(c, n), n) {
      DrainBound(c, ts, n);
    }
  }
}
