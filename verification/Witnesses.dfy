/**
  Packets at which the code departs from what is written about it, each arriving in an
  empty flow.
 */
module Witnesses {
  import opened Basics
  import opened Packets
  import opened FlowTable
  import opened Gro
  import GroDriver
  import GroRuns
  import Tcp
  import TcpLaws
  import TcpSessions
  import TcpTimes
  import Udp
  import UdpLaws
  import UdpOrder
  import UdpDatagrams
  import Runs

  function Here(): Addresses { Addresses(0, 0, 0, 0, 0, 0, 0, 0, 0, 0, 0, 0, 0, 0) }

  function Zeroes(n: nat): seq<byte> { seq(n, _ => 0) }

  // ----- Plain TCP

  /** A plain packet with `n` payload bytes, all zero, and Don't Fragment set. */
  function Plain(sentSeq: uint32, n: nat, flags: byte): Mbuf {
    var hdr := Header(Here(), 0, 0, true, 0, (40 + n) % U16, true, false, 0, 0, flags, sentSeq, []);
    Mbuf(0, Lengths(0, 0, 14, 20, 20), hdr, Zeroes(54 + n), [0])
  }

  lemma Starts(p: Mbuf, t: nat, tunnel: bool)
    ensures TcpLaws.StepChain([], p, t, tunnel) == [Tcp.Fresh(p, t, tunnel)]
  {}

  /** A packet with PSH behind one with ACK alone: byte 47 of its payload comes out as the
      flags 0x18 instead of 0. */
  lemma FlagsInPayload()
    ensures var p := Plain(10, 48, 0x18); var c := TcpLaws.StepChain([], Plain(0, 10, 0x10), 1, false);
      && Tcp.AfterTrim(p) == p && !Tcp.PlainRejected(p)
      && TcpLaws.Bytes(p, false)[47] == 0
      && var c' := TcpLaws.StepChain(c, p, 2, false);
        |c'| == 1 && c'[0].nbMerged == 2 && |c'[0].firstseg.data| == 54 + 58
          && c'[0].firstseg.data[54 + 10 + 47] == 0x18
  {
    var a, p := Plain(0, 10, 0x10), Plain(10, 48, 0x18);
    Starts(a, 1, false);
    var it := Tcp.Fresh(a, 1, false);
    TcpLaws.DecideStops([it], p, 0, false);
    assert Tcp.Check(it, p, false) == 1 && Tcp.CanMerge(it, p, 1, false);
    var q := Tcp.Flagged(p, 1, a, false);
    assert q.data == p.data[54 + 47 := 0x18];
    assert (a.data + q.data[54..])[54 + 10 + 47] == q.data[54..][47] == q.data[54 + 47];
  }

  /** A packet refused because of its length is put in front of one that came earlier. */
  lemma RefusedInFront(x: Mbuf, y: Mbuf, p: Mbuf)
    requires x == Plain(0, 40000, 0x10) && y == Plain(100000, 10, 0x10) && p == Plain(40000, 30000, 0x10)
    ensures var c := TcpLaws.StepChain(TcpLaws.StepChain([], x, 1, false), y, 2, false);
      && TcpTimes.TimeSorted(c) && TcpTimes.NotAfter(c, 3)
      && TcpTimes.TimeSorted(TcpLaws.StepChain(c, p, 3, false)) == false
  {
    var ix := Tcp.Fresh(x, 1, false);
    Starts(x, 1, false);
    ThreeTests(x, y, p);
    FarApart(ix, y);
    BetweenTwo(ix, Tcp.Fresh(y, 2, false), p);
  }

  lemma ThreeTests(x: Mbuf, y: Mbuf, p: Mbuf)
    requires x == Plain(0, 40000, 0x10) && y == Plain(100000, 10, 0x10) && p == Plain(40000, 30000, 0x10)
    ensures var ix := Tcp.Fresh(x, 1, false);
      Tcp.Check(ix, y, false) == 0 && Tcp.Check(ix, p, false) == 1 && !Tcp.CanMerge(ix, p, 1, false)
  {
    PlainLength(0, 40000, 0x10);
    PlainLength(100000, 10, 0x10);
    PlainLength(40000, 30000, 0x10);
    TooLong(x, p);
  }

  lemma PlainLength(sentSeq: uint32, n: nat, flags: byte)
    requires n < U16
    ensures var p := Plain(sentSeq, n, flags); |p.data| == 54 + n && Tcp.DataLen(p, false) == n
  {}

  lemma TooLong(x: Mbuf, p: Mbuf)
    requires |x.data| == 40054 && |p.data| == 30054 && x.lens == p.lens == Lengths(0, 0, 14, 20, 20)
    ensures !Tcp.MergeFits(x, p, p, false)
  {}

  lemma FarApart(ix: Tcp.TcpItem, y: Mbuf)
    requires Tcp.Check(ix, y, false) == 0 && ix.startTime == 1
    ensures var c := [ix, Tcp.Fresh(y, 2, false)];
      TcpLaws.StepChain([ix], y, 2, false) == c && TcpTimes.TimeSorted(c) && TcpTimes.NotAfter(c, 3)
  {
    TcpLaws.DecideStops([ix], y, 0, false);
  }

  lemma BetweenTwo(ix: Tcp.TcpItem, iy: Tcp.TcpItem, p: Mbuf)
    requires Tcp.Check(ix, p, false) == 1 && !Tcp.CanMerge(ix, p, 1, false) && iy.startTime < 3
    ensures TcpTimes.TimeSorted(TcpLaws.StepChain([ix, iy], p, 3, false)) == false
  {
    TcpLaws.DecideStops([ix, iy], p, 0, false);
    var c' := TcpLaws.StepChain([ix, iy], p, 3, false);
    assert c' == [ix, Tcp.Fresh(p, 3, false), iy];
    assert c'[1].startTime == 3 && c'[2].startTime < 3;
  }

  /** A plain packet with one option of twelve bytes. */
  function Optioned(sentSeq: uint32, n: nat): Mbuf {
    var p := Plain(sentSeq, n, 0x10);
    p.(lens := p.lens.(l4 := 32), hdr := p.hdr.(options := Zeroes(12)), data := Zeroes(66 + n))
  }

  /** It may follow a packet without options in a run. They are not merged: the flow gets
      an item for each. */
  lemma DifferentHeaders(lens: TcpLaws.FlowLens)
    requires lens(Tcp.KeyOf(Plain(0, 10, 0x10).hdr, false)) == Some(Lengths(0, 0, 14, 20, 20))
    ensures var x, y := Plain(0, 10, 0x10), Optioned(10, 10);
      && Tcp.KeyOf(x.hdr, false) == Tcp.KeyOf(y.hdr, false) && x.lens.l4 != y.lens.l4
      && TcpSessions.EventOk(TcpSessions.Packet(x, 1), lens, false)
      && TcpSessions.EventOk(TcpSessions.Packet(y, 2), lens, false)
      && TcpLaws.StepChain(TcpLaws.StepChain([], x, 1, false), y, 2, false)
           == [Tcp.Fresh(x, 1, false), Tcp.Fresh(y, 2, false)]
  {
    var x, y := Plain(0, 10, 0x10), Optioned(10, 10);
    Starts(x, 1, false);
    TcpLaws.DecideStops([Tcp.Fresh(x, 1, false)], y, 0, false);
  }

  // ----- Tunnelled TCP

  /** A tunnelled packet with ten payload bytes whose inner identifier matters. */
  function Tunnelled(sentSeq: uint32, ipId: uint16): Mbuf {
    var hdr := Header(Here(), 0, 0, true, 0, 50, false, false, 0, ipId, 0x10, sentSeq, []);
    Mbuf(0, Lengths(14, 20, 16, 20, 20), hdr, Zeroes(100), [0])
  }

  /** Three consecutive packets are one item if they arrive in order. If the first two are
      swapped, the third is not recognised as their successor. */
  lemma ThirdNotAppended()
    ensures var x, y, z := Tunnelled(100, 10), Tunnelled(110, 11), Tunnelled(120, 12);
      && |ChainOf3(x, y, z)| == 1 && ChainOf3(x, y, z)[0].nbMerged == 3
      && |ChainOf3(y, x, z)| == 2 && ChainOf3(y, x, z)[0].nbMerged == 2
  {
    var x, y, z := Tunnelled(100, 10), Tunnelled(110, 11), Tunnelled(120, 12);
    InOrder(x, y, z);
    Swapped(x, y, z);
  }

  function ChainOf3(a: Mbuf, b: Mbuf, c: Mbuf): seq<Tcp.TcpItem> {
    TcpLaws.StepChain(TcpLaws.StepChain(TcpLaws.StepChain([], a, 1, true), b, 1, true), c, 1, true)
  }

  lemma InOrder(x: Mbuf, y: Mbuf, z: Mbuf)
    requires x == Tunnelled(100, 10) && y == Tunnelled(110, 11) && z == Tunnelled(120, 12)
    ensures |ChainOf3(x, y, z)| == 1 && ChainOf3(x, y, z)[0].nbMerged == 3
  {
    var ix := Tcp.Fresh(x, 1, true);
    Starts(x, 1, true);
    TcpLaws.DecideStops([ix], y, 0, true);
    assert Tcp.Check(ix, y, true) == 1;
    var m := Tcp.Merge(ix, y, 1, true);
    assert m.sentSeq == 100 && m.ipId == 11 && |m.firstseg.data| == 110;
    TcpLaws.DecideStops([m], z, 0, true);
    assert Tcp.Check(m, z, true) == 1;
  }

  lemma Swapped(x: Mbuf, y: Mbuf, z: Mbuf)
    requires x == Tunnelled(100, 10) && y == Tunnelled(110, 11) && z == Tunnelled(120, 12)
    ensures |ChainOf3(y, x, z)| == 2 && ChainOf3(y, x, z)[0].nbMerged == 2
  {
    var iy := Tcp.Fresh(y, 1, true);
    Starts(y, 1, true);
    TcpLaws.DecideStops([iy], x, 0, true);
    assert Tcp.Check(iy, x, true) == -1;
    var m := Tcp.Merge(iy, x, -1, true);
    assert m.sentSeq == 100 && m.ipId == 10 && |m.firstseg.data| == 110;
    TcpLaws.DecideStops([m], z, 0, true);
    assert Tcp.Check(m, z, true) == 0;
  }

  // ----- UDP

  /** A fragment of `n` bytes at offset `8 * units`. */
  function Fragment(units: len13, n: nat): Mbuf {
    var hdr := Header(Here(), 0, 0, false, 0, 0, false, true, units, 0, 0, 0, []);
    Mbuf(0, Lengths(14, 20, 16, 28, 0), hdr, Zeroes(78 + n), [0])
  }

  /** A fragment refused because of its length is put behind the one it precedes. */
  lemma RefusedBehind()
    ensures var c := UdpLaws.StepChain([], Fragment(4125, 32528), 1);
      UdpOrder.Sorted(c) && !UdpOrder.Sorted(UdpLaws.StepChain(c, Fragment(0, 33000), 2))
  {
    var x, p := Fragment(4125, 32528), Fragment(0, 33000);
    var it := Udp.Fresh(x, 1);
    UdpLaws.DecideStops([], x, 0);
    assert UdpLaws.StepChain([], x, 1) == [it];
    UdpLaws.DecideStops([it], p, 0);
    assert UdpLaws.Cmp(it, p) == -1 && !Udp.CanMerge(it, p, -1);
    var c' := UdpLaws.StepChain([it], p, 2);
    assert c' == [it, Udp.Fresh(p, 2)];
    assert c'[0].fragOffset == 33000 && c'[1].fragOffset == 0;
  }

  /** The two fragments of a datagram, the first with a UDP header behind its IPv4 header. */
  function First(n: nat): Mbuf { Piece(0, n, 8, true) }

  function Second(units: len13, n: nat): Mbuf { Piece(units, n, 0, false) }

  function Piece(units: len13, n: nat, l4: len8, mf: bool): Mbuf {
    var hdr := Header(Here(), 0, 0, false, 0, 0, false, mf, units, 0, 0, 0, []);
    Mbuf(0, Lengths(14, 20, 16, 20, l4), hdr, Zeroes(70 + n), [0])
  }

  /** They differ in `l4_len`, and come out as the datagram in either order. */
  lemma DifferentL4(k: Udp.UdpKey, a: seq<UdpDatagrams.Arrival>, ts: nat, room: nat)
    requires k == Udp.KeyOf(First(24).hdr) && room >= 2
    requires var x, y := UdpDatagrams.Arrival(First(24), ts), UdpDatagrams.Arrival(Second(3, 10), ts);
      a == [x, y] || a == [y, x]
    ensures First(24).lens.l4 != Second(3, 10).lens.l4
    ensures var o := UdpDatagrams.Outcome(a, ts, room);
      |o| == 1 && UdpDatagrams.RunOf(o[0]) == Runs.Run(0, Zeroes(34)) && !o[0].hdr.mf
  {
    var x, y := First(24), Second(3, 10);
    assert UdpLaws.Bytes(x) == Zeroes(24) && UdpLaws.Bytes(y) == Zeroes(10);
    assert Zeroes(24) + Zeroes(10) == Zeroes(34);
    TwoFragments(k, x, y, a, Lengths(14, 20, 16, 20, 8), ts, room);
  }

  /** Fragment `y` continues fragment `x`, and `a` has them in one order or the other. */
  ghost predicate InTwo(k: Udp.UdpKey, x: Mbuf, y: Mbuf, a: seq<UdpDatagrams.Arrival>, l: Lengths, ts: nat) {
    && UdpLaws.PacketOk(x, l) && UdpLaws.PacketOk(y, l) && Udp.KeyOf(x.hdr) == Udp.KeyOf(y.hdr) == k
    && Udp.FragOffset(x.hdr) == 0 && Udp.FragOffset(y.hdr) == |UdpLaws.Bytes(x)|
    && var b, c := UdpDatagrams.Arrival(x, ts), UdpDatagrams.Arrival(y, ts); a == [b, c] || a == [c, b]
  }

  lemma TwoFragments(k: Udp.UdpKey, x: Mbuf, y: Mbuf, a: seq<UdpDatagrams.Arrival>, l: Lengths, ts: nat, room: nat)
    requires InTwo(k, x, y, a, l, ts) && room >= 2
    requires UdpOrder.Overhead(l) + |UdpLaws.Bytes(x) + UdpLaws.Bytes(y)| <= MAX_IP_PKT_LENGTH
    ensures var o := UdpDatagrams.Outcome(a, ts, room);
      && |o| == 1 && UdpDatagrams.RunOf(o[0]) == Runs.Run(0, UdpLaws.Bytes(x) + UdpLaws.Bytes(y))
      && (o[0].hdr.mf <==> x.hdr.mf && y.hdr.mf)
  {
    TwoApart(k, x, y, a, l, ts);
    TwoUnits(k, x, y, a);
    UdpDatagrams.CompleteDatagram(k, a, UdpLaws.Bytes(x) + UdpLaws.Bytes(y), l, ts, room);
  }

  lemma TwoApart(k: Udp.UdpKey, x: Mbuf, y: Mbuf, a: seq<UdpDatagrams.Arrival>, l: Lengths, ts: nat)
    requires InTwo(k, x, y, a, l, ts)
    ensures UdpDatagrams.Fragments(k, a, l) && |a| == 2 && a[0].t == a[1].t == ts
    ensures UdpDatagrams.AnyLastArrived(a) <==> !x.hdr.mf || !y.hdr.mf
  {
    LastOfTwo(a);
  }

  lemma TwoUnits(k: Udp.UdpKey, x: Mbuf, y: Mbuf, a: seq<UdpDatagrams.Arrival>)
    requires |a| == 2 && ((a[0].p == x && a[1].p == y) || (a[0].p == y && a[1].p == x))
    requires Udp.KeyOf(x.hdr) == Udp.KeyOf(y.hdr) == k
    requires Udp.FragOffset(x.hdr) == 0 && Udp.FragOffset(y.hdr) == |UdpLaws.Bytes(x)|
    ensures UdpDatagrams.ArrivalUnits(a) == Units(k, 0, UdpLaws.Bytes(x) + UdpLaws.Bytes(y))
  {
    UnitsOfTwo(a);
    var b, c := UdpLaws.PacketUnits(x), UdpLaws.PacketUnits(y);
    assert b + c == c + b;
    UnitsInRow(k, x, y);
  }

  lemma UnitsInRow(k: Udp.UdpKey, x: Mbuf, y: Mbuf)
    requires Udp.KeyOf(x.hdr) == Udp.KeyOf(y.hdr) == k
    requires Udp.FragOffset(x.hdr) == 0 && Udp.FragOffset(y.hdr) == |UdpLaws.Bytes(x)|
    ensures UdpLaws.PacketUnits(x) + UdpLaws.PacketUnits(y) == Units(k, 0, UdpLaws.Bytes(x) + UdpLaws.Bytes(y))
  {
    UnitsConcat(k, 0, UdpLaws.Bytes(x), UdpLaws.Bytes(y));
  }

  lemma UnitsOfTwo(a: seq<UdpDatagrams.Arrival>)
    requires |a| == 2
    ensures UdpDatagrams.ArrivalUnits(a) == UdpLaws.PacketUnits(a[0].p) + UdpLaws.PacketUnits(a[1].p)
  {
    var b := a[1..];
    assert b == [a[1]] && b[1..] == [];
    assert UdpDatagrams.ArrivalUnits(b) == UdpLaws.PacketUnits(a[1].p) + UdpDatagrams.ArrivalUnits([]);
  }

  lemma LastOfTwo(a: seq<UdpDatagrams.Arrival>)
    requires |a| == 2
    ensures UdpDatagrams.AnyLastArrived(a) <==> !a[0].p.hdr.mf || !a[1].p.hdr.mf
  {
    var b := a[1..];
    assert b == [a[1]] && b[1..] == [];
    assert UdpDatagrams.AnyLastArrived(b) == (!a[1].p.hdr.mf || UdpDatagrams.AnyLastArrived([]));
  }

  // ----- A context

  /** A context for VXLAN TCP and GTP TCP that gets one VXLAN packet and is flushed: the
      packet is neither in a table nor in the result, although there was room for it. */
  lemma PacketLost(p: Mbuf)
    requires p == Tunnelled(100, 10)
    ensures var on := Types(true, false, true, false, false); var s := GroRuns.New(1);
      var s1 := GroRuns.Next(s, GroRuns.Arrival([p], 1), _ => on, on);
      var s2 := GroRuns.Next(s1, GroRuns.Timeout(on, 1, 2), _ => on, on);
      && s1.back == [] && Count(s1.views) == 1 && GroDriver.HasRoom(s1.views, on, 1, 2)
      && s2.out == [] && Count(s2.views) == 0 && s2.lost == [p]
  {
    PacketTaken(p, Types(true, false, true, false, false));
    FirstFlushed(p);
    OnlyGtp(NoFlows(1).(vxlanTcp := [StoredPacket(p)]), p);
  }

  lemma PacketTaken(p: Mbuf, on: Types)
    requires p == Tunnelled(100, 10) && on.vxlanTcp
    ensures ProcessAll(NoFlows(1), [p], _ => on, on, 1)
      == Progress(NoFlows(1).(vxlanTcp := [StoredPacket(p)]), [], [p], 0)
  {
    FirstStored(p);
    assert [p][..0] == [];
  }

  function StoredPacket(p: Mbuf): Flow<Tcp.TcpKey, Tcp.TcpItem> {
    Flow(Tcp.KeyOf(p.hdr, true), [Tcp.Fresh(p, 1, true)])
  }

  lemma FirstStored(p: Mbuf)
    requires p == Tunnelled(100, 10)
    ensures Tcp.TunnelAccept(NoFlows(1).vxlanTcp, p, 1) == Stored([StoredPacket(p)], 0)
  {
    var v := NoFlows(1).vxlanTcp;
    assert Find(v, Tcp.KeyOf(p.hdr, true)) == 1 && FirstFree(v) == 0 && Total(v) == 0;
  }

  lemma FirstFlushed(p: Mbuf)
    ensures FlushTcp([StoredPacket(p)], true, 1, 2) == [p]
    ensures Flush([StoredPacket(p)], 2, Tcp.DrainBy(1)).view == [NoFlow]
  {
    var c, k := [Tcp.Fresh(p, 1, true)], Tcp.KeyOf(p.hdr, true);
    assert c[1..] == [] && [c[0]] + [] == c;
    assert Tcp.DrainChain([], 1, 1) == Drain([], []);
    assert Tcp.DrainBy(1)(c, 2) == Drain(c, []);
    assert [StoredPacket(p)][1..] == [];
    assert Flush([StoredPacket(p)], 2, Tcp.DrainBy(1)) == Flushed(Tag(k, c) + [], [NoFlow] + []);
    assert Tag(k, c) + [] == [Tagged(k, c[0])];
  }

  /** The GTP TCP step finds nothing to put out, and starts over. */
  lemma OnlyGtp(vs: Views, p: Mbuf)
    requires vs == NoFlows(1).(vxlanTcp := [StoredPacket(p)])
    requires FlushTcp(vs.vxlanTcp, true, 1, 2) == [p] && Flush(vs.vxlanTcp, 2, Tcp.DrainBy(1)).view == [NoFlow]
    ensures FlushContext(vs, Types(true, false, true, false, false), 1, 2) == ContextFlush(NoFlows(1), [], [p])
  {
    FlushNone(vs.gtpTcp, 1, Tcp.DrainBy(1));
  }
}
