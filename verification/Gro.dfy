/**
  The driver (`rte_gro.c`): classify packets, reassemble them in the table of their
  type, hand the others back at the front of the same array, and drain the tables into
  an array. Plain UDP/IPv4 and TCP/IPv6 are taken as not enabled.
 */
module Gro {
  import opened Packets
  import opened FlowTable
  import opened FlushLoop
  import Tcp
  import Udp

  const MAX_BURST_ITEM_NUM := 128
  const U64 := 0x1_0000_0000_0000_0000

  /** One flag per GRO type: the enabled types, or those whose test a packet type passes. */
  datatype Types = Types(vxlanTcp: bool, vxlanUdp: bool, gtpTcp: bool, gtpUdp: bool, tcp4: bool)

  datatype Route = VxlanTcp | VxlanUdp | GtpTcp | GtpUdp | Tcp4 | Unprocessed

  predicate Enabled(on: Types, r: Route) {
    match r
    case VxlanTcp => on.vxlanTcp
    case VxlanUdp => on.vxlanUdp
    case GtpTcp => on.gtpTcp
    case GtpUdp => on.gtpUdp
    case Tcp4 => on.tcp4
    case Unprocessed => false
  }

  predicate NoTypes(on: Types) { !on.vxlanTcp && !on.vxlanUdp && !on.gtpTcp && !on.gtpUdp && !on.tcp4 }

  /** The order of the tests in the packet loops. */
  function RouteOf(kind: Types, on: Types): Route {
    if kind.vxlanTcp && on.vxlanTcp then VxlanTcp
    else if kind.vxlanUdp && on.vxlanUdp then VxlanUdp
    else if kind.gtpTcp && on.gtpTcp then GtpTcp
    else if kind.gtpUdp && on.gtpUdp then GtpUdp
    else if kind.tcp4 && on.tcp4 then Tcp4
    else Unprocessed
  }

  /** The abstract tables of a context, or of one burst. */
  datatype Views = Views(vxlanTcp: Tcp.TcpView, vxlanUdp: Udp.UdpView, gtpTcp: Tcp.TcpView, gtpUdp: Udp.UdpView,
                         tcp4: Tcp.TcpView)

  function Count(vs: Views): nat {
    Total(vs.vxlanTcp) + Total(vs.vxlanUdp) + Total(vs.gtpTcp) + Total(vs.gtpUdp) + Total(vs.tcp4)
  }

  // ----- Taking packets in

  datatype Processed = Processed(views: Views, ret: int, p: Mbuf)

  /** One packet through the table of its type; -1 also for packets of no type. */
  function Process(vs: Views, r: Route, p: Mbuf, t: nat): Processed {
    match r
    case VxlanTcp => var s := Tcp.TunnelAccept(vs.vxlanTcp, p, t); Processed(vs.(vxlanTcp := s.view), s.ret, p)
    case VxlanUdp => var s := Udp.Accept(vs.vxlanUdp, p, t); Processed(vs.(vxlanUdp := s.view), s.ret, p)
    case GtpTcp => var s := Tcp.TunnelAccept(vs.gtpTcp, p, t); Processed(vs.(gtpTcp := s.view), s.ret, p)
    case GtpUdp => var s := Udp.Accept(vs.gtpUdp, p, t); Processed(vs.(gtpUdp := s.view), s.ret, p)
    case Tcp4 =>
      var q := Tcp.AfterTrim(p);
      var s := Tcp.PlainAccept(vs.tcp4, q, t);
      Processed(vs.(tcp4 := s.view), s.ret, q)
    case Unprocessed => Processed(vs, -1, p)
  }

  type Classifier = uint32 -> Types

  /** What the packet loop has done: the tables, the packets handed back in order, all
      packets as the loop left them, and the number of merges. */
  datatype Progress = Progress(views: Views, back: seq<Mbuf>, seen: seq<Mbuf>, merged: nat)

  function ProcessAll(vs: Views, ps: seq<Mbuf>, classify: Classifier, on: Types, t: nat): (r: Progress)
    ensures |r.back| + r.merged <= |ps| == |r.seen|
  {
    if ps == [] then Progress(vs, [], [], 0)
    else
      var n := |ps| - 1;
      var r := ProcessAll(vs, ps[..n], classify, on, t);
      var s := Process(r.views, RouteOf(classify(ps[n].packetType), on), ps[n], t);
      Progress(s.views, if s.ret < 0 then r.back + [s.p] else r.back, r.seen + [s.p],
               if s.ret > 0 then r.merged + 1 else r.merged)
  }

  /** The packet array when the first `i` packets of `ps` have been processed in place. */
  ghost function Compacted(r: Progress, ps: seq<Mbuf>, tail: seq<Mbuf>, i: nat): (s: seq<Mbuf>)
    requires |r.back| <= i == |r.seen| <= |ps|
    ensures |s| == |ps| + |tail| && (i < |ps| ==> s[i] == ps[i])
  {
    r.back + r.seen[|r.back|..] + ps[i..] + tail
  }

  lemma CompactedNext(r: Progress, r': Progress, ps: seq<Mbuf>, tail: seq<Mbuf>, i: nat, q: Mbuf)
    requires |r.back| <= i == |r.seen| < |ps| && r'.seen == r.seen + [q]
    ensures r'.back == r.back ==> Compacted(r', ps, tail, i + 1) == Compacted(r, ps, tail, i)[i := q]
    ensures r'.back == r.back + [q]
      ==> Compacted(r', ps, tail, i + 1) == Compacted(r, ps, tail, i)[i := q][|r.back| := q]
  {}

  /** The packet array when the first `i` packets have been through the tables but not moved. */
  ghost function SeenSoFar(r: Progress, ps: seq<Mbuf>, tail: seq<Mbuf>, i: nat): (s: seq<Mbuf>)
    requires i == |r.seen| <= |ps|
    ensures |s| == |ps| + |tail| && (i < |ps| ==> s[i] == ps[i])
  {
    r.seen + ps[i..] + tail
  }

  lemma SeenNext(r: Progress, r': Progress, ps: seq<Mbuf>, tail: seq<Mbuf>, i: nat, q: Mbuf)
    requires i == |r.seen| < |ps| && r'.seen == r.seen + [q]
    ensures SeenSoFar(r', ps, tail, i + 1) == SeenSoFar(r, ps, tail, i)[i := q]
  {}

  lemma AllSeen(r: Progress, ps: seq<Mbuf>, tail: seq<Mbuf>)
    requires |r.seen| == |ps|
    ensures SeenSoFar(r, ps, tail, |ps|) == r.seen + tail && ps[..|ps|] == ps
  {}

  lemma NothingSeen(vs: Views, ps: seq<Mbuf>, tail: seq<Mbuf>)
    ensures SeenSoFar(Progress(vs, [], [], 0), ps, tail, 0) == ps + tail
  {}

  /** A packet array after the loop. */
  ghost function HandedBack(r: Progress, tail: seq<Mbuf>): seq<Mbuf>
    requires |r.back| <= |r.seen|
  {
    Written(r.seen + tail, 0, r.back)
  }

  lemma AllCompacted(r: Progress, ps: seq<Mbuf>, tail: seq<Mbuf>)
    requires |r.back| <= |r.seen| == |ps|
    ensures Compacted(r, ps, tail, |ps|) == HandedBack(r, tail) && ps[..|ps|] == ps
  {}

  // ----- Draining

  datatype Drained = Drained(views: Views, out: seq<Mbuf>)

  function FlushTcp(v: Tcp.TcpView, tunnel: bool, ts: nat, room: nat): seq<Mbuf> {
    Emitted(Flush(v, room, Tcp.DrainBy(ts)).out, Tcp.FinishBy(tunnel))
  }

  function FlushUdp(v: Udp.UdpView, ts: nat, room: nat): seq<Mbuf> {
    Emitted(Flush(v, room, Udp.DrainBy(ts)).out, Udp.Finish)
  }

  /** The array `s` became `s'` when `e` was written to it from index `at` on. */
  ghost predicate Wrote(s: seq<Mbuf>, at: nat, e: seq<Mbuf>, s': seq<Mbuf>) {
    at + |e| <= |s| && s' == Written(s, at, e)
  }

  /** Draining one table. */
  function FlushOne(vs: Views, r: Route, ts: nat, room: nat): Drained {
    match r
    case VxlanTcp =>
      Drained(vs.(vxlanTcp := Flush(vs.vxlanTcp, room, Tcp.DrainBy(ts)).view), FlushTcp(vs.vxlanTcp, true, ts, room))
    case VxlanUdp =>
      Drained(vs.(vxlanUdp := Flush(vs.vxlanUdp, room, Udp.DrainBy(ts)).view), FlushUdp(vs.vxlanUdp, ts, room))
    case GtpTcp =>
      Drained(vs.(gtpTcp := Flush(vs.gtpTcp, room, Tcp.DrainBy(ts)).view), FlushTcp(vs.gtpTcp, true, ts, room))
    case GtpUdp => Drained(vs.(gtpUdp := Flush(vs.gtpUdp, room, Udp.DrainBy(ts)).view), FlushUdp(vs.gtpUdp, ts, room))
    case Tcp4 => Drained(vs.(tcp4 := Flush(vs.tcp4, room, Tcp.DrainBy(ts)).view), FlushTcp(vs.tcp4, false, ts, room))
    case Unprocessed => Drained(vs, [])
  }

  function TotalOf(vs: Views, r: Route): nat {
    match r
    case VxlanTcp => Total(vs.vxlanTcp)
    case VxlanUdp => Total(vs.vxlanUdp)
    case GtpTcp => Total(vs.gtpTcp)
    case GtpUdp => Total(vs.gtpUdp)
    case Tcp4 => Total(vs.tcp4)
    case Unprocessed => 0
  }

  /** Draining one more table behind what has been put out, in an array of `max` slots. */
  function FlushMore(d: Drained, r: Route, on: Types, ts: nat, max: nat): Drained {
    if Enabled(on, r) then
      var e := FlushOne(d.views, r, ts, Less(max, |d.out|));
      Drained(e.views, d.out + e.out)
    else d
  }

  /** Everything a burst puts out behind the packets `back` it hands back. */
  function FlushBurst(vs: Views, back: seq<Mbuf>, on: Types, max: nat): Drained {
    var d := Drained(vs, back);
    var d := FlushMore(d, VxlanTcp, on, 0, max);
    var d := FlushMore(d, VxlanUdp, on, 0, max);
    var d := FlushMore(d, GtpTcp, on, 0, max);
    var d := FlushMore(d, GtpUdp, on, 0, max);
    FlushMore(d, Tcp4, on, 0, max)
  }

  /** What a flush of a context puts out. `lost` are packets it took off the VXLAN tables
      that are not in the result: the GTP TCP step starts again at the first slot and with
      its own count, so they are overwritten or left behind the packets counted. */
  datatype ContextFlush = ContextFlush(views: Views, out: seq<Mbuf>, lost: seq<Mbuf>)

  /** The VXLAN part of a flush of a context. */
  function FlushVxlan(vs: Views, on: Types, ts: nat, max: nat): Drained {
    FlushMore(FlushMore(Drained(vs, []), VxlanTcp, on, ts, max), VxlanUdp, on, ts, max)
  }

  /** The GTP TCP step starts again at the first slot of the output array, with the room
      the VXLAN part left. */
  function FlushGtpTcp(d: Drained, on: Types, ts: nat, max: nat): Drained {
    if on.gtpTcp then FlushOne(d.views, GtpTcp, ts, Less(max, |d.out|)) else d
  }

  function FlushContext(vs: Views, on: Types, ts: nat, max: nat): ContextFlush {
    var v := FlushVxlan(vs, on, ts, max);
    var d := FlushMore(FlushMore(FlushGtpTcp(v, on, ts, max), GtpUdp, on, ts, max), Tcp4, on, ts, max);
    ContextFlush(d.views, d.out, if on.gtpTcp then v.out else [])
  }

  predicate IsUdp(r: Route) { r.VxlanUdp? || r.GtpUdp? }

  predicate IsTcp(r: Route) { r.VxlanTcp? || r.GtpTcp? || r.Tcp4? }

  function UdpOf(vs: Views, r: Route): Udp.UdpView
    requires IsUdp(r)
  {
    if r.VxlanUdp? then vs.vxlanUdp else vs.gtpUdp
  }

  function TcpOf(vs: Views, r: Route): Tcp.TcpView
    requires IsTcp(r)
  {
    if r.VxlanTcp? then vs.vxlanTcp else if r.GtpTcp? then vs.gtpTcp else vs.tcp4
  }

  /** Where a flush of a context has come to when it gets to the table of type `r`. */
  function Before(vs: Views, r: Route, on: Types, ts: nat, max: nat): Drained {
    var d1 := FlushMore(Drained(vs, []), VxlanTcp, on, ts, max);
    var d2 := FlushVxlan(vs, on, ts, max);
    var d3 := FlushGtpTcp(d2, on, ts, max);
    match r
    case VxlanUdp => d1
    case GtpTcp => d2
    case GtpUdp => d3
    case Tcp4 => FlushMore(d3, GtpUdp, on, ts, max)
    case _ => Drained(vs, [])
  }

  function RoomFor(vs: Views, r: Route, on: Types, ts: nat, max: nat): nat {
    Less(max, |Before(vs, r, on, ts, max).out|)
  }

  function Both(a: Types, b: Types): Types {
    Types(a.vxlanTcp && b.vxlanTcp, a.vxlanUdp && b.vxlanUdp, a.gtpTcp && b.gtpTcp, a.gtpUdp && b.gtpUdp,
          a.tcp4 && b.tcp4)
  }

  /** The 64-bit time stamp up to which items are due. */
  function FlushTimestamp(now: nat, timeoutCycles: nat): nat { (now - timeoutCycles) % U64 }

  /** The tables of the types that are on. */
  function CountOn(vs: Views, on: Types): nat {
    (if on.vxlanTcp then Total(vs.vxlanTcp) else 0) + (if on.vxlanUdp then Total(vs.vxlanUdp) else 0)
    + (if on.gtpTcp then Total(vs.gtpTcp) else 0) + (if on.gtpUdp then Total(vs.gtpUdp) else 0)
    + (if on.tcp4 then Total(vs.tcp4) else 0)
  }

  function NoFlows(entries: nat): Views {
    Views(seq(entries, _ => NoFlow), seq(entries, _ => NoFlow), seq(entries, _ => NoFlow), seq(entries, _ => NoFlow),
          seq(entries, _ => NoFlow))
  }
}
