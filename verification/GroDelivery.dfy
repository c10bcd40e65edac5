/**
  What the driver does with packets, told by their fields: which table they reach, that
  none is handed back for want of a slot, and what padding changes.
 */
module GroDelivery {
  import opened Basics
  import opened Packets
  import opened FlowTable
  import opened Gro
  import opened GroLaws
  import opened GroBursts
  import GroDriver
  import Tcp
  import TcpLaws
  import TcpDelivery
  import TcpSessions
  import Udp
  import UdpLaws
  import UdpDelivery
  import UdpSessions

  // ----- Which table

  /** Packets of this kind pass the test of type `r` and of no other. */
  predicate IsOnly(kind: Types, r: Route) {
    kind == Types(r == VxlanTcp, r == VxlanUdp, r == GtpTcp, r == GtpUdp, r == Tcp4)
  }

  /** The type is enabled, and the packet passes its test. */
  predicate Passes(kind: Types, on: Types, r: Route) {
    match r
    case VxlanTcp => kind.vxlanTcp && on.vxlanTcp
    case VxlanUdp => kind.vxlanUdp && on.vxlanUdp
    case GtpTcp => kind.gtpTcp && on.gtpTcp
    case GtpUdp => kind.gtpUdp && on.gtpUdp
    case Tcp4 => kind.tcp4 && on.tcp4
    case Unprocessed => false
  }

  function Rank(r: Route): nat {
    match r
    case VxlanTcp => 0
    case VxlanUdp => 1
    case GtpTcp => 2
    case GtpUdp => 3
    case Tcp4 => 4
    case Unprocessed => 5
  }

  /** A packet goes to the first table that it may go to, and to none exactly if there is no
      such table. */
  lemma FirstMatch(kind: Types, on: Types, r: Route)
    requires r != Unprocessed
    ensures RouteOf(kind, on) == r <==>
      Passes(kind, on, r) && forall x :: Rank(x) < Rank(r) ==> !Passes(kind, on, x)
    ensures RouteOf(kind, on) == Unprocessed ==> !Passes(kind, on, r)
    ensures Passes(kind, on, r) ==> Rank(RouteOf(kind, on)) <= Rank(r)
  {
    var first := RouteOf(kind, on);
    if Rank(first) < Rank(r) {
      assert Passes(kind, on, first);
    }
  }

  /** After a loop over one packet that the table left as `q` and answered with `ret`. */
  predicate Answered(r: Progress, vs: Views, ret: int, q: Mbuf) {
    r == Progress(vs, if ret < 0 then [q] else [], [q], if ret > 0 then 1 else 0)
  }

  /** A packet of one kind goes to the table of its type, if that is enabled, and is handed
      back otherwise; no other table changes. */
  lemma OnePacket(vs: Views, p: Mbuf, classify: Classifier, on: Types, t: nat)
    ensures var kind := classify(p.packetType); var r := ProcessAll(vs, [p], classify, on, t);
      && (IsOnly(kind, VxlanTcp) ==> if on.vxlanTcp then
            var s := Tcp.TunnelAccept(vs.vxlanTcp, p, t); Answered(r, vs.(vxlanTcp := s.view), s.ret, p)
          else Answered(r, vs, -1, p))
      && (IsOnly(kind, VxlanUdp) ==> if on.vxlanUdp then
            var s := Udp.Accept(vs.vxlanUdp, p, t); Answered(r, vs.(vxlanUdp := s.view), s.ret, p)
          else Answered(r, vs, -1, p))
      && (IsOnly(kind, GtpTcp) ==> if on.gtpTcp then
            var s := Tcp.TunnelAccept(vs.gtpTcp, p, t); Answered(r, vs.(gtpTcp := s.view), s.ret, p)
          else Answered(r, vs, -1, p))
      && (IsOnly(kind, GtpUdp) ==> if on.gtpUdp then
            var s := Udp.Accept(vs.gtpUdp, p, t); Answered(r, vs.(gtpUdp := s.view), s.ret, p)
          else Answered(r, vs, -1, p))
      && (IsOnly(kind, Tcp4) ==> if on.tcp4 then
            var q := Tcp.AfterTrim(p);
            var s := Tcp.PlainAccept(vs.tcp4, q, t); Answered(r, vs.(tcp4 := s.view), s.ret, q)
          else Answered(r, vs, -1, p))
      && (IsOnly(kind, Unprocessed) ==> Answered(r, vs, -1, p))
  {
    assert [p][..0] == [];
    assert ProcessAll(vs, [], classify, on, t) == Progress(vs, [], [], 0);
  }

  // ----- None is refused for want of a slot

  /** A TCP packet with ACK alone that has payload, padding aside. */
  predicate TcpFit(p: Mbuf, tunnel: bool) {
    && 20 <= p.lens.l4 <= 60 && p.hdr.tcpFlags == 0x10 && |p.data| > TcpDelivery.Front(p.lens, tunnel)
    && (!tunnel ==> p.hdr.totalLen > p.lens.l3 + p.lens.l4)
  }

  /** An IPv4 fragment that has payload. */
  predicate UdpFit(p: Mbuf) { (p.hdr.mf || p.hdr.fragUnits != 0) && |p.data| > UdpDelivery.Front(p.lens) }

  /** A packet of an enabled type that reassembly is meant for. */
  predicate Fit(kind: Types, on: Types, p: Mbuf) {
    || (IsOnly(kind, VxlanTcp) && on.vxlanTcp && TcpFit(p, true))
    || (IsOnly(kind, VxlanUdp) && on.vxlanUdp && UdpFit(p))
    || (IsOnly(kind, GtpTcp) && on.gtpTcp && TcpFit(p, true))
    || (IsOnly(kind, GtpUdp) && on.gtpUdp && UdpFit(p))
    || (IsOnly(kind, Tcp4) && on.tcp4 && TcpFit(p, false))
  }

  /** Each table has `n` free slots. */
  ghost predicate Slots(vs: Views, n: nat) {
    && WfAll(vs)
    && Total(vs.vxlanTcp) + n <= |vs.vxlanTcp| && Total(vs.vxlanUdp) + n <= |vs.vxlanUdp|
    && Total(vs.gtpTcp) + n <= |vs.gtpTcp| && Total(vs.gtpUdp) + n <= |vs.gtpUdp| && Total(vs.tcp4) + n <= |vs.tcp4|
  }

  lemma PlainFitTaken(v: Tcp.TcpView, p: Mbuf, t: nat)
    requires Wf(v) && Total(v) < |v| && TcpFit(p, false)
    ensures Tcp.PlainAccept(v, Tcp.AfterTrim(p), t).ret != -1
  {
    assert p.hdr.tcpFlags & !0x19 == 0;
    TcpDelivery.TrimmedData(p);
    TcpDelivery.PlainTakenIff(v, Tcp.AfterTrim(p), t);
  }

  /** One call uses one slot at most. */
  lemma ProcessSlots(vs: Views, r: Route, p: Mbuf, t: nat, n: nat)
    requires Slots(vs, n) && n > 0
    ensures Slots(Process(vs, r, p, t).views, n - 1)
  {
    match r
    case VxlanTcp => TcpSessions.AcceptWf(vs.vxlanTcp, p, t, true);
    case VxlanUdp => UdpSessions.AcceptWf(vs.vxlanUdp, p, t);
    case GtpTcp => TcpSessions.AcceptWf(vs.gtpTcp, p, t, true);
    case GtpUdp => UdpSessions.AcceptWf(vs.gtpUdp, p, t);
    case Tcp4 => TcpSessions.AcceptWf(vs.tcp4, Tcp.AfterTrim(p), t, false);
    case Unprocessed =>
  }

  lemma FitTaken(vs: Views, kind: Types, on: Types, p: Mbuf, t: nat)
    requires Slots(vs, 1) && Fit(kind, on, p)
    ensures Process(vs, RouteOf(kind, on), p, t).ret >= 0
  {
    ProcessOk(vs, RouteOf(kind, on), p, t);
    match RouteOf(kind, on)
    case VxlanTcp => TcpDelivery.TunnelTakenIff(vs.vxlanTcp, p, t);
    case VxlanUdp => UdpDelivery.TakenIff(vs.vxlanUdp, p, t);
    case GtpTcp => TcpDelivery.TunnelTakenIff(vs.gtpTcp, p, t);
    case GtpUdp => UdpDelivery.TakenIff(vs.gtpUdp, p, t);
    case Tcp4 => PlainFitTaken(vs.tcp4, p, t);
    case Unprocessed =>
  }

  /** Tables with a free slot for each packet hand none of them back. */
  lemma {:induction false} AllTaken(vs: Views, ps: seq<Mbuf>, classify: Classifier, on: Types, t: nat, n: nat)
    requires Slots(vs, |ps| + n) && forall i :: 0 <= i < |ps| ==> Fit(classify(ps[i].packetType), on, ps[i])
    ensures var r := ProcessAll(vs, ps, classify, on, t); r.back == [] && Slots(r.views, n)
  {
    if ps != [] {
      var m := |ps| - 1;
      AllTaken(vs, ps[..m], classify, on, t, n + 1);
      var r, kind := ProcessAll(vs, ps[..m], classify, on, t), classify(ps[m].packetType);
      FitTaken(r.views, kind, on, ps[m], t);
      ProcessSlots(r.views, RouteOf(kind, on), ps[m], t, n + 1);
    }
  }

  /** A burst of at most 128 packets and no more than the flows and items asked for hold
      hands none of them back. */
  lemma BurstTakesAll(ps: seq<Mbuf>, classify: Classifier, on: Types, maxFlowNum: nat, maxItemPerFlow: nat)
    requires |ps| <= 128 && |ps| <= maxFlowNum * maxItemPerFlow
    requires forall i :: 0 <= i < |ps| ==> Fit(classify(ps[i].packetType), on, ps[i])
    ensures BurstLoop(ps, classify, on, GroDriver.Entries(|ps|, maxFlowNum, maxItemPerFlow)).back == []
  {
    var n := GroDriver.Entries(|ps|, maxFlowNum, maxItemPerFlow);
    NoFlowsSlots(n);
    AllTaken(NoFlows(n), ps, classify, on, 0, 0);
  }

  lemma NoFlowsSlots(n: nat)
    ensures Slots(NoFlows(n), n)
  {
    EmptyHolds(NoFlows(n).vxlanTcp, TcpLaws.ItemBuffers);
    EmptyHolds(NoFlows(n).vxlanUdp, UdpLaws.ItemBuffers);
    EmptyHolds(NoFlows(n).gtpTcp, TcpLaws.ItemBuffers);
    EmptyHolds(NoFlows(n).gtpUdp, UdpLaws.ItemBuffers);
    EmptyHolds(NoFlows(n).tcp4, TcpLaws.ItemBuffers);
  }
}
