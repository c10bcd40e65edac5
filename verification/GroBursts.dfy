/**
  What one burst does with its packets: `nb_after_gro`, the room the flushes have, and
  how many packets really come out.
 */
module GroBursts {
  import opened Packets
  import opened FlowTable
  import opened Gro
  import opened GroLaws
  import Tcp
  import TcpLaws
  import Udp
  import UdpLaws
  import UdpBridges

  // ----- Everything is due at time 0

  ghost predicate TcpAtStart(k: Tcp.TcpKey, it: Tcp.TcpItem) { it.startTime == 0 }

  ghost predicate UdpAtStart(k: Udp.UdpKey, it: Udp.UdpItem) { it.startTime == 0 }

  /** All items arrived at time 0, and tables of types that are off are empty. */
  ghost predicate Ready(vs: Views, on: Types) { AtStart(vs) && Idle(vs, on) }

  ghost predicate AtStart(vs: Views) {
    && AllHeld(vs.vxlanTcp, TcpAtStart) && AllHeld(vs.gtpTcp, TcpAtStart) && AllHeld(vs.tcp4, TcpAtStart)
    && AllHeld(vs.vxlanUdp, UdpAtStart) && AllHeld(vs.gtpUdp, UdpAtStart)
  }

  ghost predicate Idle(vs: Views, on: Types) {
    forall r: Route :: !Enabled(on, r) ==> TotalOf(vs, r) == 0
  }

  lemma UdpReady(v: Udp.UdpView, p: Mbuf)
    requires AllHeld(v, UdpAtStart)
    ensures AllHeld(Udp.Accept(v, p, 0).view, UdpAtStart)
  {
    if !Udp.Rejected(p) {
      var k := Udp.KeyOf(p.hdr);
      var c := Lookup(v, k);
      UdpLaws.DecideStops(c, p, 0);
      assert All(k, c, UdpAtStart);
      StoreAll(v, k, Udp.Fresh(p, 0), Udp.Decide(c, p, 0), UdpAtStart);
    }
  }

  lemma TcpStoreReady(v: Tcp.TcpView, p: Mbuf, tunnel: bool)
    requires AllHeld(v, TcpAtStart)
    ensures AllHeld(TcpLaws.StoreScanned(v, p, 0, tunnel).view, TcpAtStart)
  {
    var k := Tcp.KeyOf(p.hdr, tunnel);
    var c := Lookup(v, k);
    TcpLaws.DecideStops(c, p, 0, tunnel);
    assert All(k, c, TcpAtStart);
    StoreAll(v, k, Tcp.Fresh(p, 0, tunnel), Tcp.Decide(c, p, 0, tunnel), TcpAtStart);
  }

  lemma PlainReady(v: Tcp.TcpView, p: Mbuf)
    requires AllHeld(v, TcpAtStart)
    ensures AllHeld(Tcp.PlainAccept(v, p, 0).view, TcpAtStart)
  {
    var i, v' := Find(v, Tcp.KeyOf(p.hdr, false)), Tcp.HeadDue(v, p);
    forall j | 0 <= j < |v'| && v'[j].Flow? ensures All(v'[j].key, v'[j].chain, TcpAtStart) {
      assert All(v[j].key, v[j].chain, TcpAtStart);
    }
    TcpStoreReady(v', p, false);
    TcpStoreReady(v, p, false);
  }

  lemma ProcessReady(vs: Views, kind: Types, on: Types, p: Mbuf)
    requires Ready(vs, on) && WfAll(vs)
    ensures Ready(Process(vs, RouteOf(kind, on), p, 0).views, on)
  {
    ProcessAtStart(vs, RouteOf(kind, on), p);
    ProcessIdle(vs, RouteOf(kind, on), on, p);
  }

  lemma ProcessIdle(vs: Views, r: Route, on: Types, p: Mbuf)
    requires Idle(vs, on) && (r.Unprocessed? || Enabled(on, r))
    ensures Idle(Process(vs, r, p, 0).views, on)
  {
    forall r': Route | !Enabled(on, r') ensures TotalOf(Process(vs, r, p, 0).views, r') == TotalOf(vs, r') {}
  }

  lemma ProcessAtStart(vs: Views, r: Route, p: Mbuf)
    requires AtStart(vs)
    ensures AtStart(Process(vs, r, p, 0).views)
  {
    match r
    case VxlanTcp => if !Tcp.TunnelRejected(p) { TcpStoreReady(vs.vxlanTcp, p, true); }
    case VxlanUdp => UdpReady(vs.vxlanUdp, p);
    case GtpTcp => if !Tcp.TunnelRejected(p) { TcpStoreReady(vs.gtpTcp, p, true); }
    case GtpUdp => UdpReady(vs.gtpUdp, p);
    case Tcp4 => PlainReady(vs.tcp4, Tcp.AfterTrim(p));
    case Unprocessed =>
  }

  lemma {:induction false} ProcessAllReady(vs: Views, ps: seq<Mbuf>, classify: Classifier, on: Types)
    requires Ready(vs, on) && WfAll(vs)
    ensures Ready(ProcessAll(vs, ps, classify, on, 0).views, on)
  {
    if ps != [] {
      var n := |ps| - 1;
      ProcessAllReady(vs, ps[..n], classify, on);
      ProcessAllOk(vs, ps[..n], classify, on, 0);
      ProcessReady(ProcessAll(vs, ps[..n], classify, on, 0).views, classify(ps[n].packetType), on, ps[n]);
    }
  }

  lemma NoFlowsReady(n: nat, on: Types)
    ensures WfAll(NoFlows(n)) && Ready(NoFlows(n), on) && Count(NoFlows(n)) == 0 && Buffers(NoFlows(n)) == multiset{}
  {
    NoItems(NoFlows(n).tcp4, TcpLaws.ItemBuffers, TcpAtStart);
    NoItems(NoFlows(n).gtpUdp, UdpLaws.ItemBuffers, UdpAtStart);
  }

  lemma NoItems<K, I, U>(v: seq<Flow<K, I>>, f: (K, I) -> multiset<U>, p: (K, I) -> bool)
    requires forall i :: 0 <= i < |v| ==> v[i].NoFlow?
    ensures Wf(v) && Total(v) == 0 && Held(v, f) == multiset{} && AllHeld(v, p)
  {
    EmptyHolds(v, f);
  }

  // ----- Counting what a flush puts out

  lemma {:induction false} TcpDrainCounts(c: seq<Tcp.TcpItem>, room: nat)
    requires |c| <= room && forall i :: 0 <= i < |c| ==> c[i].startTime == 0
    ensures Tcp.DrainChain(c, 0, room) == Drain(c, [])
  {
    if c != [] {
      TcpDrainCounts(c[1..], room - 1);
    }
  }

  lemma UdpCounts(v: Udp.UdpView, room: nat)
    requires AllHeld(v, UdpAtStart) && NonEmpty(v) && Total(v) <= room
    ensures Total(Flush(v, room, Udp.DrainBy(0)).view) == 0
    ensures |FlushUdp(v, 0, room)| + SumChains(v, UdpBridges.Swallowed) == Total(v)
  {
    forall i | 0 <= i < |v| && v[i].Flow? ensures Empties(v[i].chain, Udp.DrainBy(0), UdpBridges.Swallowed) {
      assert All(v[i].key, v[i].chain, UdpAtStart);
      forall r: nat | |v[i].chain| <= r
        ensures var d := Udp.DrainBy(0)(v[i].chain, r);
          d.rest == [] && |d.out| + UdpBridges.Swallowed(v[i].chain) == |v[i].chain|
      {
        assert forall j :: 0 <= j < |v[i].chain| ==> UdpAtStart(v[i].key, v[i].chain[j]);
        UdpBridges.DrainSwallows(v[i].chain, 0, r);
      }
    }
    FlushEmpties(v, room, Udp.DrainBy(0), UdpBridges.Swallowed);
  }

  lemma TcpCounts(v: Tcp.TcpView, tunnel: bool, room: nat)
    requires AllHeld(v, TcpAtStart) && NonEmpty(v) && Total(v) <= room
    ensures Total(Flush(v, room, Tcp.DrainBy(0)).view) == 0 && |FlushTcp(v, tunnel, 0, room)| == Total(v)
  {
    var none: seq<Tcp.TcpItem> -> nat := c => 0;
    forall i | 0 <= i < |v| && v[i].Flow? ensures Empties(v[i].chain, Tcp.DrainBy(0), none) {
      assert All(v[i].key, v[i].chain, TcpAtStart);
      forall r: nat | |v[i].chain| <= r ensures Tcp.DrainBy(0)(v[i].chain, r) == Drain(v[i].chain, []) {
        assert forall j :: 0 <= j < |v[i].chain| ==> TcpAtStart(v[i].key, v[i].chain[j]);
        TcpDrainCounts(v[i].chain, r);
      }
    }
    FlushEmpties(v, room, Tcp.DrainBy(0), none);
    NoChains(v, none);
  }

  /** The merges that flushing the table of type `r` is going to do. */
  function MergesLeft(vs: Views, r: Route): nat {
    match r
    case VxlanUdp => SumChains(vs.vxlanUdp, UdpBridges.Swallowed)
    case GtpUdp => SumChains(vs.gtpUdp, UdpBridges.Swallowed)
    case _ => 0
  }

  lemma NothingHeld<K, I>(v: seq<Flow<K, I>>, p: (K, I) -> bool)
    requires NonEmpty(v) && Total(v) == 0
    ensures AllHeld(v, p)
  {
    LiveWithinTotal(v);
    LiveCounts(v);
  }

  /** One flush: there is room, the table is emptied, and one packet comes out for each
      item less those merged into another on the way. */
  lemma StepCounts(d: Drained, r: Route, on: Types, max: nat)
    requires Fits(d, max) && Ready(d.views, on)
    ensures var d' := FlushMore(d, r, on, 0, max);
      && Fits(d', max) && TotalOf(d'.views, r) == 0 && d.out <= d'.out
      && |d'.out| + MergesLeft(d.views, r) == |d.out| + TotalOf(d.views, r)
  {
    MoreOk(d, r, on, 0, max);
    var room := Less(max, |d.out|);
    match r
    case VxlanTcp => TcpCounts(d.views.vxlanTcp, true, room);
    case VxlanUdp =>
      UdpCounts(d.views.vxlanUdp, room);
      NothingLeft(d.views.vxlanUdp);
    case GtpTcp => TcpCounts(d.views.gtpTcp, true, room);
    case GtpUdp =>
      UdpCounts(d.views.gtpUdp, room);
      NothingLeft(d.views.gtpUdp);
    case Tcp4 => TcpCounts(d.views.tcp4, false, room);
    case Unprocessed =>
  }

  lemma NothingLeft(v: Udp.UdpView)
    requires NonEmpty(v)
    ensures Total(v) == 0 ==> SumChains(v, UdpBridges.Swallowed) == 0
  {
    if Total(v) == 0 {
      LiveWithinTotal(v);
      LiveCounts(v);
      NoChains(v, UdpBridges.Swallowed);
    }
  }

  lemma StepReady(d: Drained, r: Route, on: Types, max: nat)
    requires Fits(d, max) && Ready(d.views, on)
    ensures Ready(FlushMore(d, r, on, 0, max).views, on)
  {
    StepCounts(d, r, on, max);
    var d' := FlushMore(d, r, on, 0, max);
    forall r' | r' != r ensures SameTable(d, d', r') {
      Elsewhere(d, r, r', on, max);
    }
    StepAtStart(d, r, on, max);
  }

  lemma StepAtStart(d: Drained, r: Route, on: Types, max: nat)
    requires AtStart(d.views)
    requires var d' := FlushMore(d, r, on, 0, max); WfAll(d'.views) && TotalOf(d'.views, r) == 0
    ensures AtStart(FlushMore(d, r, on, 0, max).views)
  {
    var d' := FlushMore(d, r, on, 0, max);
    match r
    case VxlanTcp => NothingHeld(d'.views.vxlanTcp, TcpAtStart);
    case VxlanUdp => NothingHeld(d'.views.vxlanUdp, UdpAtStart);
    case GtpTcp => NothingHeld(d'.views.gtpTcp, TcpAtStart);
    case GtpUdp => NothingHeld(d'.views.gtpUdp, UdpAtStart);
    case Tcp4 => NothingHeld(d'.views.tcp4, TcpAtStart);
    case Unprocessed =>
  }

  // ----- The five flushes in turn

  function Nth(k: nat): Route {
    if k == 0 then VxlanTcp else if k == 1 then VxlanUdp else if k == 2 then GtpTcp else if k == 3 then GtpUdp
    else if k == 4 then Tcp4 else Unprocessed
  }

  function TotalBefore(vs: Views, k: nat): nat {
    if k == 0 then 0 else TotalBefore(vs, k - 1) + TotalOf(vs, Nth(k - 1))
  }

  function MergesBefore(vs: Views, k: nat): nat {
    if k == 0 then 0 else MergesBefore(vs, k - 1) + MergesLeft(vs, Nth(k - 1))
  }

  /** What `d`, after `k` flushes, owes to the tables `vs` and the packets `back`. */
  ghost predicate Stage(d: Drained, vs: Views, back: seq<Mbuf>, on: Types, max: nat, k: nat) {
    && Fits(d, max) && Ready(d.views, on) && back <= d.out
    && (forall j :: 0 <= j < 5 ==> TotalOf(d.views, Nth(j)) == if j < k then 0 else TotalOf(vs, Nth(j)))
    && (forall j :: k <= j < 5 ==> MergesLeft(d.views, Nth(j)) == MergesLeft(vs, Nth(j)))
    && |d.out| + MergesBefore(vs, k) == |back| + TotalBefore(vs, k)
  }

  lemma Elsewhere(d: Drained, r: Route, r': Route, on: Types, max: nat)
    requires r' != r
    ensures SameTable(d, FlushMore(d, r, on, 0, max), r')
  {}

  lemma NextStage(d: Drained, vs: Views, back: seq<Mbuf>, on: Types, max: nat, k: nat)
    requires k < 5 && Stage(d, vs, back, on, max, k)
    ensures Stage(FlushMore(d, Nth(k), on, 0, max), vs, back, on, max, k + 1)
  {
    var r := Nth(k);
    var d' := FlushMore(d, r, on, 0, max);
    StepCounts(d, r, on, max);
    StepReady(d, r, on, max);
    forall j | 0 <= j < 5 && j != k ensures SameTable(d, d', Nth(j)) {
      Elsewhere(d, r, Nth(j), on, max);
    }
    Staged(d, d', vs, back, on, max, k);
  }

  ghost predicate SameTable(d: Drained, d': Drained, r: Route) {
    TotalOf(d'.views, r) == TotalOf(d.views, r) && MergesLeft(d'.views, r) == MergesLeft(d.views, r)
  }

  lemma Staged(d: Drained, d': Drained, vs: Views, back: seq<Mbuf>, on: Types, max: nat, k: nat)
    requires k < 5 && Stage(d, vs, back, on, max, k)
    requires Fits(d', max) && Ready(d'.views, on) && d.out <= d'.out
    requires forall j :: 0 <= j < 5 && j != k ==> SameTable(d, d', Nth(j))
    requires TotalOf(d'.views, Nth(k)) == 0
    requires |d'.out| + MergesLeft(d.views, Nth(k)) == |d.out| + TotalOf(d.views, Nth(k))
    ensures Stage(d', vs, back, on, max, k + 1)
  {}

  lemma AllStages(vs: Views, back: seq<Mbuf>, on: Types, max: nat)
    requires Fits(Drained(vs, back), max) && Ready(vs, on)
    ensures Stage(FlushBurst(vs, back, on, max), vs, back, on, max, 5)
  {
    var d0 := Drained(vs, back);
    var d1 := FlushMore(d0, VxlanTcp, on, 0, max);
    var d2 := FlushMore(d1, VxlanUdp, on, 0, max);
    var d3 := FlushMore(d2, GtpTcp, on, 0, max);
    var d4 := FlushMore(d3, GtpUdp, on, 0, max);
    assert Nth(0) == VxlanTcp && Nth(1) == VxlanUdp && Nth(2) == GtpTcp && Nth(3) == GtpUdp && Nth(4) == Tcp4;
    NextStage(d0, vs, back, on, max, 0);
    NextStage(d1, vs, back, on, max, 1);
    NextStage(d2, vs, back, on, max, 2);
    NextStage(d3, vs, back, on, max, 3);
    NextStage(d4, vs, back, on, max, 4);
  }

  lemma FlushCounts(vs: Views, back: seq<Mbuf>, on: Types, max: nat)
    requires Fits(Drained(vs, back), max) && Ready(vs, on)
    ensures var d := FlushBurst(vs, back, on, max);
      && Fits(d, max) && Count(d.views) == 0 && back <= d.out
      && |d.out| + MergesLeft(vs, VxlanUdp) + MergesLeft(vs, GtpUdp) == |back| + Count(vs)
  {
    AllStages(vs, back, on, max);
    SumStages(vs);
    NoneLeft(FlushBurst(vs, back, on, max), vs, back, on, max);
  }

  lemma NoneLeft(d: Drained, vs: Views, back: seq<Mbuf>, on: Types, max: nat)
    requires Stage(d, vs, back, on, max, 5)
    ensures Count(d.views) == 0
  {
    assert TotalOf(d.views, Nth(0)) == 0 && TotalOf(d.views, Nth(1)) == 0 && TotalOf(d.views, Nth(2)) == 0
      && TotalOf(d.views, Nth(3)) == 0 && TotalOf(d.views, Nth(4)) == 0;
  }

  lemma SumStages(vs: Views)
    ensures TotalBefore(vs, 5) == Count(vs)
    ensures MergesBefore(vs, 5) == MergesLeft(vs, VxlanUdp) + MergesLeft(vs, GtpUdp)
  {
    NextSum(vs, 0);
    NextSum(vs, 1);
    NextSum(vs, 2);
    NextSum(vs, 3);
    NextSum(vs, 4);
  }

  lemma NextSum(vs: Views, k: nat)
    ensures TotalBefore(vs, 0) == MergesBefore(vs, 0) == 0
    ensures TotalBefore(vs, k + 1) == TotalBefore(vs, k) + TotalOf(vs, Nth(k))
    ensures MergesBefore(vs, k + 1) == MergesBefore(vs, k) + MergesLeft(vs, Nth(k))
  {}

  lemma FlushKeepsBuffers(vs: Views, back: seq<Mbuf>, on: Types, max: nat)
    requires WfAll(vs) && |back| <= max
    ensures AllBuffers(FlushBurst(vs, back, on, max)) == AllBuffers(Drained(vs, back))
  {
    var d0 := Drained(vs, back);
    var d1 := FlushMore(d0, VxlanTcp, on, 0, max);
    var d2 := FlushMore(d1, VxlanUdp, on, 0, max);
    var d3 := FlushMore(d2, GtpTcp, on, 0, max);
    var d4 := FlushMore(d3, GtpUdp, on, 0, max);
    MoreOk(d0, VxlanTcp, on, 0, max);
    MoreOk(d1, VxlanUdp, on, 0, max);
    MoreOk(d2, GtpTcp, on, 0, max);
    MoreOk(d3, GtpUdp, on, 0, max);
    MoreOk(d4, Tcp4, on, 0, max);
  }

  // ----- The whole burst

  /** The state of a burst after all packets went through the tables. */
  function BurstLoop(ps: seq<Mbuf>, classify: Classifier, on: Types, entries: nat): Progress {
    ProcessAll(NoFlows(entries), ps, classify, on, 0)
  }

  lemma BurstReady(ps: seq<Mbuf>, classify: Classifier, on: Types, entries: nat)
    ensures var r := BurstLoop(ps, classify, on, entries);
      && |ps| - r.merged == |r.back| + Count(r.views) && (|r.back| == |ps| ==> r.back == r.seen)
      && Fits(Drained(r.views, r.back), |ps|) && Ready(r.views, on)
      && AllBuffers(Drained(r.views, r.back)) == SumBuffers(ps)
  {
    NoFlowsReady(entries, on);
    ProcessAllOk(NoFlows(entries), ps, classify, on, 0);
    ProcessAllReady(NoFlows(entries), ps, classify, on);
    assert SumBuffers(ps) + multiset{} == SumBuffers(ps);
  }

  /** Burst accounting. `nb_after_gro` is the number of packets handed back plus the
      number of items, so the flushes have room and empty the tables, and all buffers
      are in the array. It exceeds the number of packets that come out by the number of
      merges done while the UDP tables are flushed. */
  lemma BurstAccounting(ps: seq<Mbuf>, classify: Classifier, on: Types, entries: nat)
    ensures var r := BurstLoop(ps, classify, on, entries); var d := FlushBurst(r.views, r.back, on, |ps|);
      && |ps| - r.merged == |r.back| + Count(r.views)
      && r.back <= d.out && Count(d.views) == 0 && SumBuffers(d.out) == SumBuffers(ps)
      && |ps| - r.merged == |d.out| + MergesLeft(r.views, VxlanUdp) + MergesLeft(r.views, GtpUdp)
  {
    BurstReady(ps, classify, on, entries);
    var r := BurstLoop(ps, classify, on, entries);
    FlushCounts(r.views, r.back, on, |ps|);
    FlushKeepsBuffers(r.views, r.back, on, |ps|);
    var d := FlushBurst(r.views, r.back, on, |ps|);
    NoBuffers(d.views);
    assert SumBuffers(d.out) + multiset{} == SumBuffers(d.out);
  }

  lemma NoBuffers(vs: Views)
    requires WfAll(vs) && Count(vs) == 0
    ensures Buffers(vs) == multiset{}
  {
    NoneHeld(vs.vxlanTcp, TcpLaws.ItemBuffers);
    NoneHeld(vs.vxlanUdp, UdpLaws.ItemBuffers);
    NoneHeld(vs.gtpTcp, TcpLaws.ItemBuffers);
    NoneHeld(vs.gtpUdp, UdpLaws.ItemBuffers);
    NoneHeld(vs.tcp4, TcpLaws.ItemBuffers);
  }

  lemma NoneHeld<K, I, U>(v: seq<Flow<K, I>>, f: (K, I) -> multiset<U>)
    requires NonEmpty(v) && Total(v) == 0
    ensures Held(v, f) == multiset{}
  {
    LiveWithinTotal(v);
    LiveCounts(v);
    EmptyHolds(v, f);
  }
}
