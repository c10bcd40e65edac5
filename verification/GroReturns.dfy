/**
  By how much the return value of a burst exceeds the number of packets that come out:
  by the number of UDP fragments that bridge a gap when they arrive.
 */
module GroReturns {
  import opened Basics
  import opened Packets
  import opened FlowTable
  import opened Gro
  import opened GroBursts
  import GroTraces
  import opened Udp
  import opened UdpLaws
  import opened UdpOrder
  import opened UdpDatagrams
  import opened UdpSessions
  import opened UdpFlows
  import opened UdpBridges

  // ----- A UDP table that only takes packets

  /** Only packets, all at time 0, as in a burst. */
  ghost predicate OnlyArrivals(es: seq<Event>) {
    forall i :: 0 <= i < |es| ==> es[i].Packet? && es[i].t == 0
  }

  /** Event `e` is taken by the table, and its fragment bridges a gap of its flow. */
  predicate BridgesOne(s: Session, es: seq<Event>, e: Event) {
    e.Packet? && var k := KeyOf(e.p.hdr);
    TakenBy(RunAll(s, es), e, k) != [] && Bridging(TakenOf(s, es, k), e.p)
  }

  /** The number of fragments taken that bridge a gap of their flow when they arrive. */
  function BridgeCount(s: Session, es: seq<Event>): nat {
    if es == [] then 0
    else
      var n := |es| - 1;
      BridgeCount(s, es[..n]) + if BridgesOne(s, es[..n], es[n]) then 1 else 0
  }

  lemma {:induction false} TakenConcat(s: Session, a: seq<Event>, b: seq<Event>, k: UdpKey)
    ensures TakenOf(s, a + b, k) == TakenOf(s, a, k) + TakenOf(RunAll(s, a), b, k)
    decreases |a|
  {
    if a == [] {
      assert a + b == b;
    } else {
      assert (a + b)[1..] == a[1..] + b;
      TakenConcat(Next(s, a[0]), a[1..], b, k);
    }
  }

  lemma TakenMore(s: Session, a: seq<Event>, e: Event, k: UdpKey)
    ensures TakenOf(s, a + [e], k) == TakenOf(s, a, k) + TakenBy(RunAll(s, a), e, k)
    ensures RunAll(s, a + [e]) == Next(RunAll(s, a), e)
  {
    assert [e][1..] == [];
    TakenConcat(s, a, [e], k);
    RunConcat(s, a, [e]);
  }

  lemma TakenLast(s: Session, es: seq<Event>, k: UdpKey)
    requires es != []
    ensures var n := |es| - 1;
      && TakenOf(s, es, k) == TakenOf(s, es[..n], k) + TakenBy(RunAll(s, es[..n]), es[n], k)
      && RunAll(s, es) == Next(RunAll(s, es[..n]), es[n])
  {
    var n := |es| - 1;
    TakenMore(s, es[..n], es[n], k);
    assert es == es[..n] + [es[n]];
  }

  /** The fragments of flow `k` that are taken do not overlap, and their runs fit. */
  ghost predicate FlowFits(s: Session, es: seq<Event>, k: UdpKey, lens: UdpKey -> Lengths) {
    Fragments(k, TakenOf(s, es, k), lens(k)) && RunsFit(TakenOf(s, es, k), lens(k))
  }

  lemma FewerFit(k: UdpKey, a: seq<Arrival>, b: seq<Arrival>, l: Lengths)
    requires Fragments(k, a + b, l) && RunsFit(a + b, l)
    ensures Fragments(k, a, l) && RunsFit(a, l)
  {
    assert forall i :: 0 <= i < |a| ==> (a + b)[i] == a[i];
    forall lo: nat, hi: nat | lo <= hi && Within(Cover(a), lo, hi) ensures Within(Cover(a + b), lo, hi) {
      forall x: nat | lo <= x < hi ensures Cover(a + b)(x) {
        assert Cover(a)(x);
        var i :| 0 <= i < |a| && At(a[i].p, x);
        assert At((a + b)[i].p, x);
      }
    }
  }

  lemma FlowFitsBefore(s: Session, es: seq<Event>, k: UdpKey, lens: UdpKey -> Lengths)
    requires es != [] && FlowFits(s, es, k, lens)
    ensures FlowFits(s, es[..|es| - 1], k, lens)
  {
    TakenLast(s, es, k);
    FewerFit(k, TakenOf(s, es[..|es| - 1], k), TakenBy(RunAll(s, es[..|es| - 1]), es[|es| - 1], k), lens(k));
  }

  lemma {:induction false} NeverDrained(s: Session, es: seq<Event>, k: UdpKey)
    requires forall i :: 0 <= i < |es| ==> es[i].Packet?
    ensures Undisturbed(s, es, k)
    decreases |es|
  {
    if es != [] {
      NeverDrained(Next(s, es[0]), es[1..], k);
    }
  }

  lemma {:induction false} TakenAtStart(s: Session, es: seq<Event>, k: UdpKey)
    requires OnlyArrivals(es)
    ensures forall i :: 0 <= i < |TakenOf(s, es, k)| ==> TakenOf(s, es, k)[i].t == 0
    decreases |es|
  {
    if es != [] {
      TakenAtStart(Next(s, es[0]), es[1..], k);
    }
  }

  /** The merges left in the chain of a flow. */
  lemma FlowBridges(s: Session, es: seq<Event>, k: UdpKey, lens: UdpKey -> Lengths)
    requires Wf(s.view) && OnlyArrivals(es) && Lookup(s.view, k) == [] && FlowFits(s, es, k, lens)
    ensures Swallowed(Lookup(RunAll(s, es).view, k)) == Bridges(TakenOf(s, es, k))
  {
    NeverDrained(s, es, k);
    RunChain(s, es, k);
    TakenAtStart(s, es, k);
    BridgesMerged(k, TakenOf(s, es, k), lens(k), 0);
  }

  lemma BridgesLast(a: seq<Arrival>, x: Arrival)
    ensures Bridges(a + [x]) == Bridges(a) + if Bridging(a, x.p) then 1 else 0
  {
    assert (a + [x])[..|a|] == a;
  }

  /** What a packet changes: the chain of its own flow. */
  lemma SumAccept(v: UdpView, p: Mbuf, t: nat)
    ensures var v' := Accept(v, p, t).view; var k := KeyOf(p.hdr);
      SumChains(v', Swallowed) + Swallowed(Lookup(v, k)) == SumChains(v, Swallowed) + Swallowed(Lookup(v', k))
  {
    if !Rejected(p) {
      var k := KeyOf(p.hdr);
      StoreSum(v, k, Fresh(p, t), Decide(Lookup(v, k), p, 0), Swallowed);
    }
  }

  /** The merges left in a table: one for each fragment taken that bridged a gap. */
  lemma {:induction false} TableBridges(s: Session, es: seq<Event>, lens: UdpKey -> Lengths)
    requires Wf(s.view) && (forall i :: 0 <= i < |s.view| ==> s.view[i].NoFlow?)
    requires OnlyArrivals(es) && forall k :: FlowFits(s, es, k, lens)
    ensures SumChains(RunAll(s, es).view, Swallowed) == BridgeCount(s, es)
    decreases |es|
  {
    if es == [] {
      NoChains(s.view, Swallowed);
    } else {
      var n := |es| - 1;
      forall k ensures FlowFits(s, es[..n], k, lens) {
        FlowFitsBefore(s, es, k, lens);
      }
      TableBridges(s, es[..n], lens);
      LastBridges(s, es, lens);
    }
  }

  lemma LastBridges(s: Session, es: seq<Event>, lens: UdpKey -> Lengths)
    requires Wf(s.view) && (forall i :: 0 <= i < |s.view| ==> s.view[i].NoFlow?)
    requires es != [] && OnlyArrivals(es) && forall k :: FlowFits(s, es, k, lens)
    ensures var n := |es| - 1;
      SumChains(RunAll(s, es).view, Swallowed)
        == SumChains(RunAll(s, es[..n]).view, Swallowed) + if BridgesOne(s, es[..n], es[n]) then 1 else 0
  {
    var n := |es| - 1;
    var e, k, s' := es[n], KeyOf(es[n].p.hdr), RunAll(s, es[..n]);
    assert Lookup(s.view, k) == [];
    TakenLast(s, es, k);
    FlowFitsBefore(s, es, k, lens);
    FlowBridges(s, es[..n], k, lens);
    FlowBridges(s, es, k, lens);
    SumAccept(s'.view, e.p, e.t);
    BridgesLast(TakenOf(s, es[..n], k), Arrival(e.p, e.t));
    RunWf(s, es[..n]);
    AcceptWf(s'.view, e.p, e.t);
  }

  // ----- The burst

  /** The events of a burst for the UDP table of type `r`. */
  function Routed(ps: seq<Mbuf>, classify: Classifier, on: Types, r: Route): seq<Event> {
    GroTraces.UdpArrivals(ps, classify, on, 0, r)
  }

  /** The fragments the table of type `r` takes do not overlap, and their runs fit. */
  ghost predicate Cut(ps: seq<Mbuf>, classify: Classifier, on: Types, entries: nat, r: Route, lens: UdpKey -> Lengths) {
    forall k :: FlowFits(NewTable(entries), Routed(ps, classify, on, r), k, lens)
  }

  /** The fragments that bridge a gap in the table of type `r`. */
  function BridgesIn(ps: seq<Mbuf>, classify: Classifier, on: Types, entries: nat, r: Route): nat {
    BridgeCount(NewTable(entries), Routed(ps, classify, on, r))
  }

  lemma {:induction false} RoutedAtStart(ps: seq<Mbuf>, classify: Classifier, on: Types, r: Route)
    ensures forall e :: e in Routed(ps, classify, on, r) ==> e.Packet? && e.t == 0
  {
    if ps != [] {
      RoutedAtStart(ps[..|ps| - 1], classify, on, r);
    }
  }

  lemma LeftInTable(ps: seq<Mbuf>, classify: Classifier, on: Types, entries: nat, r: Route, lens: UdpKey -> Lengths)
    requires IsUdp(r) && Cut(ps, classify, on, entries, r, lens)
    ensures MergesLeft(BurstLoop(ps, classify, on, entries).views, r) == BridgesIn(ps, classify, on, entries, r)
  {
    NewBalanced(entries, _ => None);
    RoutedAtStart(ps, classify, on, r);
    TableBridges(NewTable(entries), Routed(ps, classify, on, r), lens);
    GroTraces.UdpTakesIn(NoFlows(entries), ps, classify, on, 0, r, NewTable(entries));
  }

  /** The return value of a burst exceeds the number of packets that come out by the number
      of UDP fragments that were taken after both the run ending where they start and the
      run starting where they end were stored; it is right if and only if there are none. */
  lemma ReturnExcess(ps: seq<Mbuf>, classify: Classifier, on: Types, entries: nat,
                     vxlan: UdpKey -> Lengths, gtp: UdpKey -> Lengths)
    requires Cut(ps, classify, on, entries, VxlanUdp, vxlan) && Cut(ps, classify, on, entries, GtpUdp, gtp)
    ensures var r := BurstLoop(ps, classify, on, entries); var d := FlushBurst(r.views, r.back, on, |ps|);
      && |ps| - r.merged == |d.out| + BridgesIn(ps, classify, on, entries, VxlanUdp)
        + BridgesIn(ps, classify, on, entries, GtpUdp)
      && (|ps| - r.merged == |d.out| <==>
            BridgesIn(ps, classify, on, entries, VxlanUdp) == 0 && BridgesIn(ps, classify, on, entries, GtpUdp) == 0)
  {
    BurstAccounting(ps, classify, on, entries);
    LeftInTable(ps, classify, on, entries, VxlanUdp, vxlan);
    LeftInTable(ps, classify, on, entries, GtpUdp, gtp);
  }

  // ----- When everything gets in

  /** The number of fragments that bridge a gap among the fragments before them. */
  function BridgingAmong(es: seq<Event>): nat {
    if es == [] then 0
    else
      var n := |es| - 1;
      BridgingAmong(es[..n]) + if BridgesArrived(es[..n], es[n]) then 1 else 0
  }

  predicate BridgesArrived(es: seq<Event>, e: Event) {
    e.Packet? && !Rejected(e.p) && Bridging(ArrivalsOf(es, KeyOf(e.p.hdr)), e.p)
  }

  /** With a free slot for each event, this can be read off the arrivals alone. */
  lemma {:induction false} CountArrivals(s: Session, es: seq<Event>)
    requires Wf(s.view) && Total(s.view) + |es| <= |s.view|
    ensures BridgeCount(s, es) == BridgingAmong(es)
  {
    if es != [] {
      var n := |es| - 1;
      CountArrivals(s, es[..n]);
      if es[n].Packet? {
        LastArrives(s, es);
      }
    }
  }

  lemma LastArrives(s: Session, es: seq<Event>)
    requires Wf(s.view) && Total(s.view) + |es| <= |s.view| && es != [] && es[|es| - 1].Packet?
    ensures var n := |es| - 1; BridgesOne(s, es[..n], es[n]) <==> BridgesArrived(es[..n], es[n])
  {
    var n := |es| - 1;
    var k := KeyOf(es[n].p.hdr);
    AllTaken(s, es[..n], k);
    AllTaken(s, es, k);
    TakenLast(s, es, k);
    ArrivalsLast(es, k);
    SameTail(TakenOf(s, es[..n], k), TakenBy(RunAll(s, es[..n]), es[n], k), ArrivalsOf([es[n]], k));
  }

  lemma SameTail<T>(a: seq<T>, b: seq<T>, c: seq<T>)
    requires a + b == a + c
    ensures b == c
  {
    assert b == (a + b)[|a|..] && c == (a + c)[|a|..];
  }

  lemma {:induction false} ArrivalsConcat(a: seq<Event>, b: seq<Event>, k: UdpKey)
    ensures ArrivalsOf(a + b, k) == ArrivalsOf(a, k) + ArrivalsOf(b, k)
  {
    if a == [] {
      assert a + b == b;
    } else {
      assert (a + b)[1..] == a[1..] + b;
      ArrivalsConcat(a[1..], b, k);
    }
  }

  lemma ArrivalsLast(es: seq<Event>, k: UdpKey)
    requires es != []
    ensures var n := |es| - 1; ArrivalsOf(es, k) == ArrivalsOf(es[..n], k) + ArrivalsOf([es[n]], k)
  {
    var n := |es| - 1;
    assert es == es[..n] + [es[n]];
    ArrivalsConcat(es[..n], [es[n]], k);
  }

  /** The fragments sent to a table do not overlap and their runs fit: a condition on the
      packets of a burst alone. */
  ghost predicate Clean(ps: seq<Mbuf>, classify: Classifier, on: Types, entries: nat, r: Route,
                        lens: UdpKey -> Lengths) {
    var es := Routed(ps, classify, on, r);
    && |es| <= entries
    && forall k :: Fragments(k, ArrivalsOf(es, k), lens(k)) && RunsFit(ArrivalsOf(es, k), lens(k))
  }

  lemma CleanCut(ps: seq<Mbuf>, classify: Classifier, on: Types, entries: nat, r: Route, lens: UdpKey -> Lengths)
    requires Clean(ps, classify, on, entries, r, lens)
    ensures Cut(ps, classify, on, entries, r, lens)
    ensures BridgesIn(ps, classify, on, entries, r) == BridgingAmong(Routed(ps, classify, on, r))
  {
    var s, es := NewTable(entries), Routed(ps, classify, on, r);
    NewBalanced(entries, _ => None);
    EmptyHolds(s.view, ItemBuffers);
    CountArrivals(s, es);
    forall k ensures FlowFits(s, es, k, lens) {
      AllTaken(s, es, k);
    }
  }

  /** If each UDP table has a slot for every fragment sent to it, the excess can be counted
      on the packets before the call. */
  lemma ReturnOnArrivals(ps: seq<Mbuf>, classify: Classifier, on: Types, entries: nat,
                         vxlan: UdpKey -> Lengths, gtp: UdpKey -> Lengths)
    requires Clean(ps, classify, on, entries, VxlanUdp, vxlan) && Clean(ps, classify, on, entries, GtpUdp, gtp)
    ensures var r := BurstLoop(ps, classify, on, entries); var d := FlushBurst(r.views, r.back, on, |ps|);
      && |ps| - r.merged == |d.out|
           + BridgingAmong(Routed(ps, classify, on, VxlanUdp)) + BridgingAmong(Routed(ps, classify, on, GtpUdp))
  {
    CleanCut(ps, classify, on, entries, VxlanUdp, vxlan);
    CleanCut(ps, classify, on, entries, GtpUdp, gtp);
    ReturnExcess(ps, classify, on, entries, vxlan, gtp);
  }
}
