/**
  Reassembly of tunnelled UDP/IPv4 fragments (`gro_gtp_udp4.c`; `gro_vxlan_udp4.c`
  is the same code with another tunnel header in the key).
 */
module Udp {
  import opened Packets
  import opened FlowTable
  import opened ItemTable
  import opened FlushLoop

  datatype UdpKey = UdpKey(
    ethSrc: nat, ethDst: nat, ipSrc: nat, ipDst: nat, ipId: nat, tunnel: nat,
    outerEthSrc: nat, outerEthDst: nat, outerIpSrc: nat, outerIpDst: nat, outerDstPort: nat)

  datatype UdpItem = UdpItem(firstseg: Mbuf, startTime: nat, fragOffset: nat, isLastFrag: bool, nbMerged: uint16)

  type UdpView = seq<Flow<UdpKey, UdpItem>>

  function KeyOf(h: Header): UdpKey {
    UdpKey(h.addr.ethSrc, h.addr.ethDst, h.addr.ipSrc, h.addr.ipDst, h.ipId, h.addr.tunnel,
           h.addr.outerEthSrc, h.addr.outerEthDst, h.addr.outerIpSrc, h.addr.outerIpDst, h.addr.outerDstPort)
  }

  function L2Offset(l: Lengths): nat { l.outerL2 + l.outerL3 }

  function HdrLen(l: Lengths): nat { L2Offset(l) + l.l2 + l.l3 }

  function FragOffset(h: Header): nat { h.fragUnits * 8 }

  /** Packets that are handed back at once: no fragment, or no payload. */
  predicate Rejected(p: Mbuf) {
    !(p.hdr.mf || p.hdr.fragUnits != 0) || |p.data| <= HdrLen(p.lens)
  }

  /** The payload length as the code computes it, truncated to 16 bits. */
  function DataLen(p: Mbuf): uint16 { (|p.data| - HdrLen(p.lens)) % U16 }

  function Fresh(p: Mbuf, startTime: nat): UdpItem {
    UdpItem(p, startTime, FragOffset(p.hdr), !p.hdr.mf, 1)
  }

  /** Positive if a fragment at `off` starts where the item ends, negative if it
      ends where the item starts. */
  function CheckNeighbor(it: UdpItem, off: nat, len: uint16): int {
    if off == it.fragOffset + DataLen(it.firstseg) then 1
    else if off + len == it.fragOffset then -1
    else 0
  }

  /** What `merge_two_udp4_packets` takes for the header length of both packets: the outer
      lengths are those of the packet `p` that is merged, the others those of the head. */
  function MergeHdr(head: Mbuf, p: Mbuf): nat { L2Offset(p.lens) + head.lens.l2 + head.lens.l3 }

  /** The size test of `merge_two_udp4_packets`, in 32-bit arithmetic. */
  predicate MergeFits(head: Mbuf, tail: Mbuf, p: Mbuf) {
    var l2Len := if L2Offset(p.lens) > 0 then head.lens.outerL2 else head.lens.l2;
    Wrap(|head.data| - l2Len + |tail.data| - MergeHdr(head, p)) <= MAX_IP_PKT_LENGTH
  }

  predicate CanMerge(it: UdpItem, p: Mbuf, cmp: int) {
    if cmp > 0 then MergeFits(it.firstseg, p, p) else MergeFits(p, it.firstseg, p)
  }

  function Merge(it: UdpItem, p: Mbuf, cmp: int, off: nat, last: bool): UdpItem {
    var n := (it.nbMerged + 1) % U16;
    if cmp > 0 then
      it.(firstseg := Chain(it.firstseg, p, MergeHdr(it.firstseg, p)), nbMerged := n,
          isLastFrag := last || it.isLastFrag)
    else
      it.(firstseg := Chain(p, it.firstseg, MergeHdr(p, p)), nbMerged := n,
          isLastFrag := last || it.isLastFrag, fragOffset := off)
  }

  /** What scanning the chain from position `k` on decides about packet `p`. */
  function Decide(c: seq<UdpItem>, p: Mbuf, k: nat): (d: Decision<UdpItem>)
    requires k <= |c|
    ensures Applies(d, |c|)
    decreases |c| - k
  {
    if k == |c| then InsertAt(k)
    else
      var off := FragOffset(p.hdr);
      var cmp := CheckNeighbor(c[k], off, DataLen(p));
      if cmp != 0 then
        if CanMerge(c[k], p, cmp) then MergeAt(k, Merge(c[k], p, cmp, off, !p.hdr.mf))
        else InsertAt(if k == 0 then 1 else k)
      else if off < c[k].fragOffset then InsertAt(k)
      else Decide(c, p, k + 1)
  }

  /** The effect of `gro_gtp_udp4_reassemble` on the abstract table, and its result. */
  function Accept(v: UdpView, p: Mbuf, startTime: nat): Stored<UdpKey, UdpItem> {
    if Rejected(p) then Stored(v, -1)
    else
      var key := KeyOf(p.hdr);
      Store(v, key, Fresh(p, startTime), Decide(Lookup(v, key), p, 0))
  }

  /** The scan loop over the chain of flow `i`. */
  method Scan(p: Mbuf, tbl: Table<UdpKey, UdpItem>, i: nat, startTime: nat) returns (ret: int)
    requires tbl.Valid() && i < |tbl.view| && tbl.view[i].Flow? && Find(tbl.view, tbl.view[i].key) == i
    modifies tbl, tbl.items, tbl.flows
    ensures tbl.Valid()
    ensures Stored(tbl.view, ret) ==
      Store(old(tbl.view), old(tbl.view[i].key), Fresh(p, startTime), Decide(old(tbl.view[i].chain), p, 0))
  {
    var cmp, cur, prev, k := Walk(p, tbl, i);
    tbl.Linked(i, 0);
    tbl.Linked(i, k);
    if cmp != 0 {
      ret := Meet(p, tbl, i, startTime, cmp, cur, prev, k);
    } else if cur == tbl.flows[i].start {
      ret := tbl.AddFirst(i, Fresh(p, startTime));
    } else {
      ret := tbl.AddBehind(i, prev, k - 1, Fresh(p, startTime));
    }
  }

  /** The packet meets its neighbour `cur`, at position `k` of the chain. */
  method Meet(p: Mbuf, tbl: Table<UdpKey, UdpItem>, i: nat, startTime: nat, cmp: int, cur: nat, prev: nat, ghost k: nat)
    returns (ret: int)
    requires tbl.Valid() && i < |tbl.view| && tbl.view[i].Flow? && Find(tbl.view, tbl.view[i].key) == i
    requires k < |tbl.chains[i]| == |tbl.view[i].chain| && cur == tbl.chains[i][k]
    requires prev == tbl.chains[i][if k == 0 then 0 else k - 1]
    requires cmp == CheckNeighbor(tbl.view[i].chain[k], FragOffset(p.hdr), DataLen(p)) && cmp != 0
    modifies tbl, tbl.items
    ensures tbl.Valid()
    ensures Stored(tbl.view, ret) ==
      Store(old(tbl.view), old(tbl.view[i].key), Fresh(p, startTime), Decide(old(tbl.view[i].chain), p, k))
  {
    tbl.Linked(i, k);
    if CanMerge(tbl.items[cur].item, p, cmp) {
      tbl.Change(i, cur, k, Merge(tbl.items[cur].item, p, cmp, FragOffset(p.hdr), !p.hdr.mf));
      ret := 1;
    } else {
      ret := tbl.AddBehind(i, prev, if k == 0 then 0 else k - 1, Fresh(p, startTime));
    }
  }

  /** The loop of the scan: `cur` is the item it stops at, at position `k` of the chain. */
  method Walk(p: Mbuf, tbl: Table<UdpKey, UdpItem>, i: nat) returns (cmp: int, cur: nat, prev: nat, ghost k: nat)
    requires tbl.Valid() && i < |tbl.view| && tbl.view[i].Flow?
    ensures var c := tbl.view[i].chain;
      && |c| == |tbl.chains[i]| > 0 && k <= |c| && cur == Link(tbl.chains[i], k)
      && prev == tbl.chains[i][if k == 0 then 0 else k - 1]
      && Decide(c, p, 0) == Decide(c, p, k)
      && cmp == (if k < |c| then CheckNeighbor(c[k], FragOffset(p.hdr), DataLen(p)) else 0)
      && (k < |c| ==> cmp != 0 || FragOffset(p.hdr) < c[k].fragOffset)
  {
    var len, off := DataLen(p), FragOffset(p.hdr);
    tbl.Linked(i, 0);
    cur := tbl.flows[i].start;
    prev := cur;
    cmp, k := 0, 0;
    ghost var c := tbl.view[i].chain;
    while cur != INVALID_ARRAY_INDEX
      invariant k <= |c| && cur == Link(tbl.chains[i], k)
      invariant prev == tbl.chains[i][if k == 0 then 0 else k - 1]
      invariant Decide(c, p, 0) == Decide(c, p, k)
      invariant cmp == 0
      decreases |c| - k
    {
      tbl.Linked(i, k);
      cmp := CheckNeighbor(tbl.items[cur].item, off, len);
      if cmp != 0 || off < tbl.items[cur].item.fragOffset {
        return;
      }
      prev := cur;
      cur := tbl.items[cur].next;
      k := k + 1;
      tbl.Linked(i, k);
    }
    tbl.Linked(i, k);
  }

  method Reassemble(p: Mbuf, tbl: Table<UdpKey, UdpItem>, startTime: nat) returns (ret: int)
    requires tbl.Valid()
    modifies tbl, tbl.items, tbl.flows
    ensures tbl.Valid() && Stored(tbl.view, ret) == Accept(old(tbl.view), p, startTime)
  {
    if !(p.hdr.mf || p.hdr.fragUnits != 0) {
      return -1;
    }
    if |p.data| <= HdrLen(p.lens) {
      return -1;
    }
    var find, i := tbl.Search(KeyOf(p.hdr));
    if find {
      ret := Scan(p, tbl, i, startTime);
    } else {
      ret := tbl.AddFlow(KeyOf(p.hdr), Fresh(p, startTime));
    }
  }

  // ----- Flushing

  /** `gro_gtp_udp4_merge_items`: the first item swallows its successors as long as
      they are neighbours and the merge is not refused. */
  function Fuse(c: seq<UdpItem>): (r: seq<UdpItem>)
    requires c != []
    ensures 0 < |r| <= |c| && r[0].startTime == c[0].startTime && r[1..] == c[|c| - |r| + 1..]
    decreases |c|
  {
    if |c| == 1 then c
    else
      var p := c[1].firstseg;
      var cmp := CheckNeighbor(c[0], c[1].fragOffset, DataLen(p));
      if cmp != 0 && CanMerge(c[0], p, cmp) then
        Fuse([Merge(c[0], p, cmp, c[1].fragOffset, c[1].isLastFrag)] + c[2..])
      else c
  }

  /** What a flush takes from one chain, with room for `room` packets. */
  function DrainChain(c: seq<UdpItem>, ts: nat, room: nat): Drain<UdpItem>
    decreases |c|
  {
    if c == [] || room == 0 || c[0].startTime > ts then Drain([], c)
    else
      var m := Fuse(c);
      var d := DrainChain(m[1..], ts, room - 1);
      Drain([m[0]] + d.out, d.rest)
  }

  lemma {:induction false} DrainBound(c: seq<UdpItem>, ts: nat, room: nat)
    ensures Shrinks(c, DrainChain(c, ts, room), room)
    decreases |c|
  {
    if c != [] && room > 0 && c[0].startTime <= ts {
      DrainBound(Fuse(c)[1..], ts, room - 1);
    }
  }

  function DrainBy(ts: nat): Drainer<UdpItem> {
    (c: seq<UdpItem>, room: nat) => DrainChain(c, ts, room)
  }

  /** `update_gtp_header`, in the 16-bit arithmetic of the code. */
  function UpdateHeader(it: UdpItem): Mbuf {
    var m := it.firstseg;
    var ip := (|m.data| - m.lens.outerL2) % U16;
    var udp := (ip - m.lens.outerL3) % U16;
    var inner := (udp - m.lens.l2) % U16;
    m.(hdr := m.hdr.(outerTotalLen := ip, outerUdpLen := udp, totalLen := inner, mf := m.hdr.mf && !it.isLastFrag))
  }

  /** The packet put out for an item. */
  function Finish(it: UdpItem): Mbuf {
    if it.nbMerged > 1 then UpdateHeader(it) else it.firstseg
  }

  /** The first item with its successor folded in, if they are neighbours and fit. */
  function FuseOnce(c: seq<UdpItem>): seq<UdpItem> {
    if |c| <= 1 then c
    else
      var p := c[1].firstseg;
      var cmp := CheckNeighbor(c[0], c[1].fragOffset, DataLen(p));
      if cmp != 0 && CanMerge(c[0], p, cmp) then [Merge(c[0], p, cmp, c[1].fragOffset, c[1].isLastFrag)] + c[2..]
      else c
  }

  /** One round of the loop in `MergeItems`. */
  method MergeNext(tbl: Table<UdpKey, UdpItem>, ghost f: nat, start: nat, idx: nat) returns (done: bool, next: nat)
    requires tbl.Valid() && f < |tbl.view| && tbl.view[f].Flow? && tbl.flows[f].start == start
    requires |tbl.view[f].chain| >= 2 && start < tbl.items.Length && tbl.items[start].Used?
    requires idx == tbl.items[start].next
    modifies tbl, tbl.items
    ensures tbl.Valid()
    ensures tbl.view == old(tbl.view)[f := Flow(old(tbl.view[f].key), FuseOnce(old(tbl.view[f].chain)))]
    ensures done <==> |FuseOnce(old(tbl.view[f].chain))| == |old(tbl.view[f].chain)|
    ensures !done ==> |FuseOnce(old(tbl.view[f].chain))| == |old(tbl.view[f].chain)| - 1
    ensures tbl.items[start].Used? && next == tbl.items[start].next
  {
    tbl.Linked(f, 0);
    tbl.Linked(f, 1);
    var p := tbl.items[idx].item.firstseg;
    var off := tbl.items[idx].item.fragOffset;
    var last := tbl.items[idx].item.isLastFrag;
    var cmp := CheckNeighbor(tbl.items[start].item, off, DataLen(p));
    done := cmp == 0 || !CanMerge(tbl.items[start].item, p, cmp);
    next := idx;
    if !done {
      next := Absorb(tbl, f, start, idx, Merge(tbl.items[start].item, p, cmp, off, last));
    }
  }

  /** The first item of a chain becomes `x`, and the second is dropped. */
  method Absorb(tbl: Table<UdpKey, UdpItem>, ghost f: nat, start: nat, idx: nat, x: UdpItem) returns (next: nat)
    requires tbl.Valid() && f < |tbl.view| && tbl.view[f].Flow? && |tbl.chains[f]| == |tbl.view[f].chain| >= 2
    requires tbl.chains[f][0] == start && tbl.chains[f][1] == idx
    modifies tbl, tbl.items
    ensures tbl.Valid()
    ensures tbl.view == old(tbl.view)[f := Flow(old(tbl.view[f].key), [x] + old(tbl.view[f].chain)[2..])]
    ensures start < tbl.items.Length && tbl.items[start].Used? && next == tbl.items[start].next
  {
    ghost var c := tbl.view[f].chain;
    assert c[0 := x][2..] == c[2..];
    tbl.Change(f, start, 0, x);
    next := tbl.RemoveSecond(f, start, idx);
    tbl.Linked(f, 0);
  }

  method MergeItems(tbl: Table<UdpKey, UdpItem>, ghost f: nat, start: nat)
    requires tbl.Valid() && f < |tbl.view| && tbl.view[f].Flow? && tbl.flows[f].start == start
    modifies tbl, tbl.items
    ensures tbl.Valid() && old(tbl.view[f].chain) != []
    ensures tbl.view == old(tbl.view)[f := Flow(old(tbl.view[f].key), Fuse(old(tbl.view[f].chain)))]
  {
    tbl.Linked(f, 0);
    ghost var v0, c := tbl.view, tbl.view[f].chain;
    var idx := tbl.items[start].next;
    while idx != INVALID_ARRAY_INDEX
      invariant Folding(tbl, v0, f, start, idx, c) && Fuse(c) == Fuse(v0[f].chain)
      decreases |c|
    {
      var done, next := MergeRound(tbl, v0, f, start, idx, c);
      if done {
        return;
      }
      c := FuseOnce(c);
      idx := next;
    }
    FoldedAll(tbl, v0, f, start, idx, c);
  }

  lemma FoldedAll(tbl: Table<UdpKey, UdpItem>, v0: UdpView, f: nat, start: nat, idx: nat, c: seq<UdpItem>)
    requires Folding(tbl, v0, f, start, idx, c) && idx == INVALID_ARRAY_INDEX
    ensures Fuse(c) == c
  {
    tbl.Linked(f, 0);
    tbl.Linked(f, 1);
  }

  /** The first items of flow `f` have become one, at the head of what is left, `c`. */
  ghost predicate Folding(tbl: Table<UdpKey, UdpItem>, v0: UdpView, f: nat, start: nat, idx: nat, c: seq<UdpItem>)
    reads tbl, tbl.items, tbl.flows
  {
    && tbl.Valid() && f < |v0| && v0[f].Flow? && c != [] && tbl.view == v0[f := Flow(v0[f].key, c)]
    && tbl.flows[f].start == start < tbl.items.Length && tbl.items[start].Used? && idx == tbl.items[start].next
  }

  method MergeRound(tbl: Table<UdpKey, UdpItem>, ghost v0: UdpView, ghost f: nat, start: nat, idx: nat,
                    ghost c: seq<UdpItem>)
    returns (done: bool, next: nat)
    requires Folding(tbl, v0, f, start, idx, c) && idx != INVALID_ARRAY_INDEX
    modifies tbl, tbl.items
    ensures done ==> FuseOnce(c) == c && tbl.Valid() && tbl.view == old(tbl.view)
    ensures !done ==> |FuseOnce(c)| < |c| && Folding(tbl, v0, f, start, next, FuseOnce(c))
  {
    tbl.Linked(f, 0);
    tbl.Linked(f, 1);
    UpdateTwice(v0, f, Flow(v0[f].key, c), Flow(v0[f].key, FuseOnce(c)));
    done, next := MergeNext(tbl, f, start, idx);
  }

  /** One round of the flush loop: if the head of flow `i` is due, put it out, merged
      with what follows it, and take it off the chain. */
  method DrainOne(tbl: Table<UdpKey, UdpItem>, i: nat, ts: nat, out: array<Mbuf>, pos: nat) returns (due: bool)
    requires tbl.Valid() && i < |tbl.view| && tbl.view[i].Flow?
    requires pos < out.Length
    modifies tbl, tbl.items, tbl.flows, out
    ensures tbl.Valid() && old(tbl.view[i].chain) != []
    ensures due <==> old(tbl.view[i].chain)[0].startTime <= ts
    ensures !due ==> tbl.view == old(tbl.view) && out[..] == old(out[..])
    ensures due ==> tbl.view == old(tbl.view)[i := SlotFor(old(tbl.view[i].key), Fuse(old(tbl.view[i].chain))[1..])]
    ensures due ==> out[..] == old(out[..])[pos := Finish(Fuse(old(tbl.view[i].chain))[0])]
  {
    tbl.Linked(i, 0);
    var j := tbl.flows[i].start;
    due := tbl.items[j].item.startTime <= ts;
    if due {
      MergeItems(tbl, i, j);
      tbl.Linked(i, 0);
      out[pos] := Finish(tbl.items[j].item);
      var _ := tbl.RemoveFirst(i);
    }
  }

  method DrainRound(tbl: Table<UdpKey, UdpItem>, ghost v0: UdpView, i: nat, out: array<Mbuf>, ghost out0: seq<Mbuf>,
                    at: nat,
                    ghost d: Drain<UdpItem>, ts: nat, room: nat, n: nat, ghost c: seq<UdpItem>)
    returns (due: bool, ghost c': seq<UdpItem>)
    requires Drains(tbl, v0, i, out, out0, at, d, DrainBy(ts), Finish, room, n, c) && c != [] && n < room
    modifies tbl, tbl.items, tbl.flows, out
    ensures due <==> c[0].startTime <= ts
    ensures Drains(tbl, v0, i, out, out0, at, d, DrainBy(ts), Finish, room, if due then n + 1 else n, c')
    ensures if due then |c'| < |c| else c' == c
  {
    due := DrainOne(tbl, i, ts, out, at + n);
    c' := c;
    if due {
      DrainStep(d, DrainBy(ts), room, n, c, Fuse(c));
      FillNext(out0, at, Finished(d.out, Finish), n);
      c' := Fuse(c)[1..];
      UpdateTwice(v0, i, SlotFor(v0[i].key, c), SlotFor(v0[i].key, c'));
    }
  }

  /** The loop over one flow in `gro_gtp_udp4_tbl_timeout_flush`, writing to `out`
      from index `at` on. */
  method DrainFlow(tbl: Table<UdpKey, UdpItem>, i: nat, ts: nat, out: array<Mbuf>, at: nat, room: nat) returns (n: nat)
    requires tbl.Valid() && i < |tbl.view| && tbl.view[i].Flow? && at + room <= out.Length && room > 0
    modifies tbl, tbl.items, tbl.flows, out
    ensures tbl.Valid()
    ensures var d := DrainChain(old(tbl.view[i].chain), ts, room);
      && n == |d.out| <= room
      && tbl.view == old(tbl.view)[i := SlotFor(old(tbl.view[i].key), d.rest)]
      && out[..] == Written(old(out[..]), at, Finished(d.out, Finish))
  {
    ghost var d := DrainChain(tbl.view[i].chain, ts, room);
    DrainBound(tbl.view[i].chain, ts, room);
    ghost var c, v0, out0 := tbl.view[i].chain, tbl.view, out[..];
    tbl.Headed(i);
    tbl.Linked(i, 0);
    n := 0;
    while n < room && tbl.flows[i].start != INVALID_ARRAY_INDEX
      invariant Drains(tbl, v0, i, out, out0, at, d, DrainBy(ts), Finish, room, n, c)
      invariant tbl.flows[i].start == INVALID_ARRAY_INDEX <==> c == []
      decreases |c|
    {
      var due;
      due, c := DrainRound(tbl, v0, i, out, out0, at, d, ts, room, n, c);
      tbl.Headed(i);
      if !due {
        break;
      }
      n := n + 1;
    }
    DrainEnds(tbl, v0, i, out, out0, at, d, DrainBy(ts), Finish, room, n, c);
  }

  /** One flow of the outer flush loop. */
  method FlushRound(tbl: Table<UdpKey, UdpItem>, ghost v0: UdpView, out: array<Mbuf>, ghost out0: seq<Mbuf>, at: nat,
                    ghost r: Flushed<UdpKey, UdpItem>, ts: nat, room: nat, i: nat, k: nat) returns (n: nat)
    requires Flushes(tbl, v0, out, out0, at, r, DrainBy(ts), Finish, room, i, k) && i < |v0| && k < room
    modifies tbl, tbl.items, tbl.flows, out
    ensures Flushes(tbl, v0, out, out0, at, r, DrainBy(ts), Finish, room, i + 1, k + n)
  {
    tbl.Headed(i);
    n := 0;
    FlushSkips(tbl, v0, out, out0, at, r, DrainBy(ts), Finish, room, i, k, n);
    if tbl.flows[i].start == INVALID_ARRAY_INDEX {
      return;
    }
    ghost var v, s, d := tbl.view, out[..], DrainChain(v0[i].chain, ts, room - k);
    DrainBound(v0[i].chain, ts, room - k);
    n := DrainFlow(tbl, i, ts, out, at + k, room - k);
    FlushMoves(tbl, v0, out, out0, at, r, DrainBy(ts), Finish, room, i, k, v, s, d, n);
  }

  /** `gro_gtp_udp4_tbl_timeout_flush`, writing to `out` from index `at` on. */
  method TimeoutFlush(tbl: Table<UdpKey, UdpItem>, ts: nat, out: array<Mbuf>, at: nat, nbOut: nat) returns (k: nat)
    requires tbl.Valid() && at + nbOut <= out.Length && (nbOut > 0 || tbl.flowNum == 0)
    modifies tbl, tbl.items, tbl.flows, out
    ensures tbl.Valid()
    ensures var r := Flush(old(tbl.view), nbOut, DrainBy(ts));
      && tbl.view == r.view && k == |r.out| <= nbOut
      && out[..] == Written(old(out[..]), at, Emitted(r.out, Finish))
  {
    ghost var v0, out0, r := tbl.view, out[..], Flush(tbl.view, nbOut, DrainBy(ts));
    FlushStarts(tbl, out, at, ts, nbOut);
    k := 0;
    var i := 0;
    while i < tbl.maxFlowNum && k < nbOut
      invariant Flushes(tbl, v0, out, out0, at, r, DrainBy(ts), Finish, nbOut, i, k)
    {
      if tbl.flowNum == 0 {
        break;
      }
      var n := FlushRound(tbl, v0, out, out0, at, r, ts, nbOut, i, k);
      k, i := k + n, i + 1;
    }
    FlushEnds(tbl, v0, out, out0, at, r, DrainBy(ts), Finish, nbOut, i, k);
  }

  lemma FlushStarts(tbl: Table<UdpKey, UdpItem>, out: array<Mbuf>, at: nat, ts: nat, nbOut: nat)
    requires tbl.Valid() && at + nbOut <= out.Length
    ensures var r := Flush(tbl.view, nbOut, DrainBy(ts));
      Flushes(tbl, tbl.view, out, out[..], at, r, DrainBy(ts), Finish, nbOut, 0, 0)
  {
    DrainBounds(ts);
    FlushBegins(tbl, out, at, DrainBy(ts), Finish, nbOut);
  }

  lemma DrainBounds(ts: nat)
    ensures forall c, n: nat :: c != [] ==> Shrinks(c, DrainBy(ts)(c, n), n)
  {
    forall c, n: nat ensures Shrinks(c, DrainBy(ts)(c, n), n) {
      DrainBound(c, ts, n);
    }
  }
}
