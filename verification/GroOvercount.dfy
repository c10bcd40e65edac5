/**
  A family of bursts whose return value is more than the packets that come out: three
  fragments of a datagram of which the third arrives second.
 */
module GroOvercount {
  import opened Packets
  import opened FlowTable
  import opened Gro
  import opened GroLaws
  import opened GroBursts
  import opened GroReturns
  import opened Udp
  import opened UdpLaws
  import opened UdpOrder
  import opened UdpDatagrams
  import opened UdpFlows
  import opened UdpBridges
  import UdpSessions

  /** Three adjacent fragments that fit in one packet. */
  predicate Adjacent(a: Mbuf, b: Mbuf, c: Mbuf, l: Lengths) {
    && PacketOk(a, l) && PacketOk(b, l) && PacketOk(c, l) && !Rejected(a) && !Rejected(b) && !Rejected(c)
    && KeyOf(a.hdr) == KeyOf(b.hdr) == KeyOf(c.hdr)
    && EndOf(a) == StartOf(b) && EndOf(b) == StartOf(c)
    && Overhead(l) + (EndOf(c) - StartOf(a)) <= MAX_IP_PKT_LENGTH
    && a.segs != []
  }

  // ----- Two items and one merge

  lemma FirstTwo(a: Mbuf, b: Mbuf, c: Mbuf, l: Lengths)
    requires Adjacent(a, b, c, l)
    ensures StepChain([], a, 0) == [Fresh(a, 0)] && StepChain([Fresh(a, 0)], c, 0) == [Fresh(a, 0), Fresh(c, 0)]
  {
    var fa := Fresh(a, 0);
    FreshOk(a, 0, l);
    NeighborMeans(KeyOf(a.hdr), fa, c, l);
    DecideStops([], a, 0);
    DecideStops([fa], c, 0);
    assert StopAt([fa], c, 0) == 1;
  }

  lemma Third(a: Mbuf, b: Mbuf, c: Mbuf, l: Lengths)
    requires Adjacent(a, b, c, l)
    ensures Merges([Fresh(a, 0), Fresh(c, 0)], b)
  {
    var fa := Fresh(a, 0);
    FreshOk(a, 0, l);
    NeighborMeans(KeyOf(a.hdr), fa, b, l);
    ShortFits(a, b, b, l);
    assert StopAt([fa, Fresh(c, 0)], b, 0) == 0;
  }

  lemma GetsIn(v: UdpView, k: UdpKey, p: Mbuf, f: nat)
    requires Wf(v) && Total(v) < |v| && !Rejected(p) && KeyOf(p.hdr) == k
    requires f < |v| && (Find(v, k) == f || (Find(v, k) == |v| && FirstFree(v) == f))
    ensures var s := Accept(v, p, 0);
      && s.ret == (if Find(v, k) == f && Merges(Lookup(v, k), p) then 1 else 0)
      && Find(s.view, k) == f && Lookup(s.view, k) == StepChain(Lookup(v, k), p, 0)
  {
    AcceptChain(v, p, 0);
    FindUpdated(v, f, Accept(v, p, 0).view, k);
    DecideStops(Lookup(v, k), p, 0);
  }

  /** The GTP table after each of the three arrivals. */
  lemma TableOfThree(n: nat, a: Mbuf, b: Mbuf, c: Mbuf, l: Lengths)
    requires n >= 3 && Adjacent(a, b, c, l)
    ensures var s1 := Accept(seq(n, _ => NoFlow), a, 0); var s2 := Accept(s1.view, c, 0);
      s1.ret == 0 && s2.ret == 0 && Accept(s2.view, b, 0).ret == 1
  {
    var v: UdpView := seq(n, _ => NoFlow);
    var k := KeyOf(a.hdr);
    EmptyHolds(v, ItemBuffers);
    assert FirstFree(v) == 0 && Find(v, k) == n;
    FirstTwo(a, b, c, l);
    Third(a, b, c, l);
    GetsIn(v, k, a, 0);
    var s1 := Accept(v, a, 0);
    UdpTakes(v, a, 0);
    DecideStops([Fresh(a, 0)], c, 0);
    GetsIn(s1.view, k, c, 0);
    var s2 := Accept(s1.view, c, 0);
    UdpTakes(s1.view, c, 0);
    GetsIn(s2.view, k, b, 0);
  }

  lemma ThreeProcessed(n: nat, a: Mbuf, b: Mbuf, c: Mbuf, classify: Classifier, on: Types)
    requires forall x: Mbuf :: x == a || x == b || x == c ==> RouteOf(classify(x.packetType), on) == GtpUdp
    requires var s1 := Accept(seq(n, _ => NoFlow), a, 0); var s2 := Accept(s1.view, c, 0);
      s1.ret == 0 && s2.ret == 0 && Accept(s2.view, b, 0).ret == 1
    ensures BurstLoop([a, c, b], classify, on, n).merged == 1
  {
    var v := NoFlows(n);
    assert [a, c, b][..2] == [a, c] && [a, c][..1] == [a] && [a][..0] == [];
    var s1 := Accept(v.gtpUdp, a, 0);
    assert ProcessAll(v, [a], classify, on, 0) == Progress(v.(gtpUdp := s1.view), [], [a], 0);
    var s2 := Accept(s1.view, c, 0);
    assert ProcessAll(v, [a, c], classify, on, 0) == Progress(v.(gtpUdp := s2.view), [], [a, c], 0);
  }

  // ----- One bridge

  /** What is routed where. */
  lemma ThreeRouted(a: Mbuf, b: Mbuf, c: Mbuf, classify: Classifier, on: Types)
    requires forall x: Mbuf :: x == a || x == b || x == c ==> RouteOf(classify(x.packetType), on) == GtpUdp
    ensures Routed([a, c, b], classify, on, VxlanUdp) == []
    ensures Routed([a, c, b], classify, on, GtpUdp)
      == [UdpSessions.Packet(a, 0), UdpSessions.Packet(c, 0), UdpSessions.Packet(b, 0)]
  {
    assert [a, c, b][..2] == [a, c] && [a, c][..1] == [a] && [a][..0] == [];
    assert Routed([], classify, on, VxlanUdp) == [] == Routed([], classify, on, GtpUdp);
    assert Routed([a], classify, on, VxlanUdp) == [] == Routed([a, c], classify, on, VxlanUdp);
    assert Routed([a], classify, on, GtpUdp) == [UdpSessions.Packet(a, 0)];
    assert Routed([a, c], classify, on, GtpUdp) == [UdpSessions.Packet(a, 0), UdpSessions.Packet(c, 0)];
  }

  lemma ThreeArrived(es: seq<UdpSessions.Event>, k: UdpKey)
    requires |es| <= 3 && forall i :: 0 <= i < |es| ==> es[i].Packet? && !Rejected(es[i].p)
    ensures (forall i :: 0 <= i < |es| ==> KeyOf(es[i].p.hdr) == k) ==>
      ArrivalsOf(es, k) == seq(|es|, i requires 0 <= i < |es| => Arrival(es[i].p, es[i].t))
    ensures (forall i :: 0 <= i < |es| ==> KeyOf(es[i].p.hdr) != k) ==> ArrivalsOf(es, k) == []
  {
    if es != [] {
      ThreeArrived(es[1..], k);
      assert forall i :: 0 <= i < |es[1..]| ==> es[1..][i] == es[i + 1];
    }
  }

  lemma OneBridge(a: Mbuf, b: Mbuf, c: Mbuf, l: Lengths)
    requires Adjacent(a, b, c, l)
    ensures BridgingAmong([UdpSessions.Packet(a, 0), UdpSessions.Packet(c, 0), UdpSessions.Packet(b, 0)]) == 1
  {
    var k := KeyOf(a.hdr);
    var ea, eb, ec := UdpSessions.Packet(a, 0), UdpSessions.Packet(b, 0), UdpSessions.Packet(c, 0);
    var x, y := Arrival(a, 0), Arrival(c, 0);
    assert [ea, ec, eb][..2] == [ea, ec] && [ea, ec][..1] == [ea] && [ea][..0] == [];
    assert ArrivalsOf([], k) == [];
    ThreeArrived([ea], k);
    ThreeArrived([ea, ec], k);
    assert ArrivalsOf([ea], k) == [x] && ArrivalsOf([ea, ec], k) == [x, y];
    assert [x, y][0] == x && [x, y][1] == y;
    assert Bridging([x, y], b);
    assert !Bridging([x], c);
    assert BridgingAmong([]) == 0;
    assert BridgingAmong([ea]) == BridgingAmong([]);
    assert BridgingAmong([ea, ec]) == BridgingAmong([ea]);
  }

  lemma ThreeFit(a: Mbuf, b: Mbuf, c: Mbuf, l: Lengths)
    requires Adjacent(a, b, c, l)
    ensures Fragments(KeyOf(a.hdr), [Arrival(a, 0), Arrival(c, 0), Arrival(b, 0)], l)
    ensures RunsFit([Arrival(a, 0), Arrival(c, 0), Arrival(b, 0)], l)
  {
    var all := [Arrival(a, 0), Arrival(c, 0), Arrival(b, 0)];
    forall lo: nat, hi: nat | lo <= hi && Within(Cover(all), lo, hi)
      ensures Overhead(l) + (hi - lo) <= MAX_IP_PKT_LENGTH
    {
      if lo < hi {
        assert Cover(all)(lo) && Cover(all)(hi - 1);
      }
    }
  }

  lemma ThreeClean(n: nat, a: Mbuf, b: Mbuf, c: Mbuf, l: Lengths, classify: Classifier, on: Types)
    requires n >= 3 && Adjacent(a, b, c, l)
    requires forall x: Mbuf :: x == a || x == b || x == c ==> RouteOf(classify(x.packetType), on) == GtpUdp
    ensures Clean([a, c, b], classify, on, n, GtpUdp, _ => l)
    ensures Clean([a, c, b], classify, on, n, VxlanUdp, _ => l)
  {
    ThreeRouted(a, b, c, classify, on);
    var es := Routed([a, c, b], classify, on, GtpUdp);
    NoRuns(l);
    forall k ensures Fragments(k, ArrivalsOf(es, k), l) && RunsFit(ArrivalsOf(es, k), l) {
      ThreeArrived(es, k);
      if k == KeyOf(a.hdr) {
        assert ArrivalsOf(es, k) == [Arrival(a, 0), Arrival(c, 0), Arrival(b, 0)];
        ThreeFit(a, b, c, l);
      }
    }
  }

  lemma NoRuns(l: Lengths)
    requires Overhead(l) <= MAX_IP_PKT_LENGTH
    ensures RunsFit([], l)
  {
    forall lo: nat, hi: nat | lo <= hi && Within(Cover([]), lo, hi) ensures lo == hi {
      assert !Cover([])(lo);
    }
  }

  /** `rte_gro_reassemble_burst` returns 2 for them and puts one packet in the array. */
  lemma Overcount(n: nat, a: Mbuf, b: Mbuf, c: Mbuf, l: Lengths, classify: Classifier, on: Types)
    requires n >= 3 && Adjacent(a, b, c, l)
    requires forall x: Mbuf :: x == a || x == b || x == c ==> RouteOf(classify(x.packetType), on) == GtpUdp
    ensures var r := BurstLoop([a, c, b], classify, on, n);
      3 - r.merged == 2 && |FlushBurst(r.views, r.back, on, 3).out| == 1
  {
    TableOfThree(n, a, b, c, l);
    ThreeProcessed(n, a, b, c, classify, on);
    ThreeClean(n, a, b, c, l, classify, on);
    ThreeRouted(a, b, c, classify, on);
    OneBridge(a, b, c, l);
    ReturnOnArrivals([a, c, b], classify, on, n, _ => l, _ => l);
  }
}
