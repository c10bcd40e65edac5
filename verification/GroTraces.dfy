/**
  The tables of a context, one by one: what happens to a table in a run of a context is
  a run of that table alone, so that all that `UdpSessions`, `UdpLastFragment` and
  `TcpSessions` say about runs of a table holds in a context.
 */
module GroTraces {
  import opened Basics
  import opened Packets
  import opened FlowTable
  import opened Gro
  import opened GroRuns
  import Parts
  import Tcp
  import TcpLaws
  import TcpSessions
  import TcpParts
  import Udp
  import UdpLaws
  import UdpSessions
  import UdpParts

  // ----- UDP tables

  /** The packets of a burst that go to table `r`. */
  function UdpArrivals(ps: seq<Mbuf>, classify: Classifier, on: Types, t: nat, r: Route): seq<UdpSessions.Event> {
    if ps == [] then []
    else
      var n := |ps| - 1;
      UdpArrivals(ps[..n], classify, on, t, r)
      + (if RouteOf(classify(ps[n].packetType), on) == r then [UdpSessions.Packet(ps[n], t)] else [])
  }

  /** What one call on the context means for table `r`. */
  function UdpEvents(vs: Views, e: Event, classify: Classifier, on: Types, r: Route): seq<UdpSessions.Event> {
    match e
    case Arrival(ps, now) => UdpArrivals(ps, classify, on, now, r)
    case Timeout(types, ts, max) =>
      if Enabled(Both(types, on), r) then [UdpSessions.Timeout(ts, RoomFor(vs, r, Both(types, on), ts, max))] else []
  }

  function UdpTrace(s: Session, es: seq<Event>, classify: Classifier, on: Types, r: Route): seq<UdpSessions.Event>
    decreases |es|
  {
    if es == [] then []
    else UdpEvents(s.views, es[0], classify, on, r) + UdpTrace(Next(s, es[0], classify, on), es[1..], classify, on, r)
  }

  lemma {:induction false} UdpTakesIn(vs: Views, ps: seq<Mbuf>, classify: Classifier, on: Types, t: nat, r: Route,
                                      u: UdpSessions.Session)
    requires IsUdp(r) && u.view == UdpOf(vs, r)
    ensures var u' := UdpSessions.RunAll(u, UdpArrivals(ps, classify, on, t, r));
      u'.view == UdpOf(ProcessAll(vs, ps, classify, on, t).views, r) && u'.out == u.out
  {
    if ps != [] {
      var n := |ps| - 1;
      var before := UdpArrivals(ps[..n], classify, on, t, r);
      UdpTakesIn(vs, ps[..n], classify, on, t, r, u);
      if RouteOf(classify(ps[n].packetType), on) == r {
        var last := [UdpSessions.Packet(ps[n], t)];
        UdpSessions.RunConcat(u, before, last);
        assert last[1..] == [];
      } else {
        assert before + [] == before;
      }
    }
  }

  lemma UdpPutsOut(vs: Views, on: Types, ts: nat, max: nat, r: Route)
    requires IsUdp(r)
    ensures var f := FlushContext(vs, on, ts, max); var room := RoomFor(vs, r, on, ts, max);
      if Enabled(on, r) then
        && UdpOf(f.views, r) == Flush(UdpOf(vs, r), room, Udp.DrainBy(ts)).view
        && multiset(FlushUdp(UdpOf(vs, r), ts, room)) <= multiset(f.out) + multiset(f.lost)
      else UdpOf(f.views, r) == UdpOf(vs, r)
  {}

  /** One call on the context is the events it means for a table. */
  lemma UdpNext(s: Session, e: Event, classify: Classifier, on: Types, r: Route, u: UdpSessions.Session)
    requires IsUdp(r) && u.view == UdpOf(s.views, r)
    ensures var u' := UdpSessions.RunAll(u, UdpEvents(s.views, e, classify, on, r)); var s' := Next(s, e, classify, on);
      && u'.view == UdpOf(s'.views, r)
      && (multiset(u.out) <= multiset(s.out) + multiset(s.lost)
        ==> multiset(u'.out) <= multiset(s'.out) + multiset(s'.lost))
  {
    match e
    case Arrival(ps, now) => UdpTakesIn(s.views, ps, classify, on, now, r, u);
    case Timeout(types, ts, max) =>
      UdpPutsOut(s.views, Both(types, on), ts, max, r);
      var last := [UdpSessions.Timeout(ts, RoomFor(s.views, r, Both(types, on), ts, max))];
      assert last[1..] == [];
  }

  /** In every run of a context, a UDP table does what it does alone in the run of the
      packets routed to it and of the flushes with the room left for it; and what it puts
      out is among what the context puts out or drops. */
  lemma {:induction false} UdpProjection(s: Session, es: seq<Event>, classify: Classifier, on: Types, r: Route,
                                         u: UdpSessions.Session)
    requires IsUdp(r) && u.view == UdpOf(s.views, r) && multiset(u.out) <= multiset(s.out) + multiset(s.lost)
    ensures var u' := UdpSessions.RunAll(u, UdpTrace(s, es, classify, on, r)); var s' := RunAll(s, es, classify, on);
      u'.view == UdpOf(s'.views, r) && multiset(u'.out) <= multiset(s'.out) + multiset(s'.lost)
    decreases |es|
  {
    if es != [] {
      var now := UdpEvents(s.views, es[0], classify, on, r);
      UdpNext(s, es[0], classify, on, r, u);
      var s1 := Next(s, es[0], classify, on);
      UdpProjection(s1, es[1..], classify, on, r, UdpSessions.RunAll(u, now));
      UdpSessions.RunConcat(u, now, UdpTrace(s1, es[1..], classify, on, r));
    }
  }

  /** The packets routed to table `r` are such as it can handle. */
  ghost predicate UdpArrivalsOk(es: seq<Event>, classify: Classifier, on: Types, r: Route,
                                lens: UdpLaws.FlowLens) {
    forall i, j ::
      && 0 <= i < |es| && es[i].Arrival? && 0 <= j < |es[i].ps|
      && RouteOf(classify(es[i].ps[j].packetType), on) == r
      ==> UdpSessions.EventOk(UdpSessions.Packet(es[i].ps[j], es[i].now), lens)
  }

  lemma {:induction false} UdpArrivalsAre(ps: seq<Mbuf>, classify: Classifier, on: Types, t: nat, r: Route,
                                          lens: UdpLaws.FlowLens)
    requires forall j :: 0 <= j < |ps| && RouteOf(classify(ps[j].packetType), on) == r ==>
      UdpSessions.EventOk(UdpSessions.Packet(ps[j], t), lens)
    ensures forall e :: e in UdpArrivals(ps, classify, on, t, r) ==> UdpSessions.EventOk(e, lens)
  {
    if ps != [] {
      UdpArrivalsAre(ps[..|ps| - 1], classify, on, t, r, lens);
    }
  }

  lemma {:induction false} UdpTraceOk(s: Session, es: seq<Event>, classify: Classifier, on: Types, r: Route,
                                      lens: UdpLaws.FlowLens)
    requires UdpArrivalsOk(es, classify, on, r, lens)
    ensures forall e :: e in UdpTrace(s, es, classify, on, r) ==> UdpSessions.EventOk(e, lens)
    decreases |es|
  {
    if es != [] {
      if es[0].Arrival? {
        UdpArrivalsAre(es[0].ps, classify, on, es[0].now, r, lens);
      }
      assert forall i :: 0 <= i < |es| - 1 ==> es[1..][i] == es[i + 1];
      UdpTraceOk(Next(s, es[0], classify, on), es[1..], classify, on, r, lens);
    }
  }

  /** So in every run of a context each fragment that a UDP table took is in exactly one
      item or one packet put out, as `UdpParts.Explains` says, and the payload bytes it
      took, by flow and offset, are those it holds plus those of the packets it put out. */
  lemma UdpBytesInContext(s: Session, es: seq<Event>, classify: Classifier, on: Types, r: Route, u: UdpSessions.Session,
                          tr: UdpParts.UdpTrace, lens: UdpLaws.FlowLens)
    requires IsUdp(r) && u.view == UdpOf(s.views, r) && multiset(u.out) <= multiset(s.out) + multiset(s.lost)
    requires UdpSessions.Balanced(u, lens) && UdpArrivalsOk(es, classify, on, r, lens)
    requires UdpParts.Explains(tr, u, lens)
    ensures var trace := UdpTrace(s, es, classify, on, r);
      var u' := UdpSessions.RunAll(u, trace); var s' := RunAll(s, es, classify, on);
      && UdpSessions.Balanced(u', lens) && UdpParts.Explains(UdpParts.TraceAll(tr, trace), u', lens)
      && u'.view == UdpOf(s'.views, r) && multiset(u'.out) <= multiset(s'.out) + multiset(s'.lost)
  {
    UdpProjection(s, es, classify, on, r, u);
    UdpTraceOk(s, es, classify, on, r, lens);
    UdpSessions.RunBalanced(u, UdpTrace(s, es, classify, on, r), lens);
    UdpParts.RunBuilt(tr, u, UdpTrace(s, es, classify, on, r), lens);
  }

  // ----- TCP tables

  function Tunnelled(r: Route): bool { !r.Tcp4? }

  /** The packet as the table gets it. */
  function Shown(p: Mbuf, r: Route): Mbuf { if r.Tcp4? then Tcp.AfterTrim(p) else p }

  function TcpArrivals(ps: seq<Mbuf>, classify: Classifier, on: Types, t: nat, r: Route): seq<TcpSessions.Event> {
    if ps == [] then []
    else
      var n := |ps| - 1;
      TcpArrivals(ps[..n], classify, on, t, r)
      + (if RouteOf(classify(ps[n].packetType), on) == r then [TcpSessions.Packet(Shown(ps[n], r), t)] else [])
  }

  function TcpEvents(vs: Views, e: Event, classify: Classifier, on: Types, r: Route): seq<TcpSessions.Event> {
    match e
    case Arrival(ps, now) => TcpArrivals(ps, classify, on, now, r)
    case Timeout(types, ts, max) =>
      if Enabled(Both(types, on), r) then [TcpSessions.Timeout(ts, RoomFor(vs, r, Both(types, on), ts, max))] else []
  }

  function TcpTrace(s: Session, es: seq<Event>, classify: Classifier, on: Types, r: Route): seq<TcpSessions.Event>
    decreases |es|
  {
    if es == [] then []
    else TcpEvents(s.views, es[0], classify, on, r) + TcpTrace(Next(s, es[0], classify, on), es[1..], classify, on, r)
  }

  lemma {:induction false} TcpRunConcat(s: TcpSessions.Session, a: seq<TcpSessions.Event>, b: seq<TcpSessions.Event>,
                                        tunnel: bool)
    ensures TcpSessions.RunAll(s, a + b, tunnel) == TcpSessions.RunAll(TcpSessions.RunAll(s, a, tunnel), b, tunnel)
    decreases |a|
  {
    if a == [] {
      assert a + b == b;
    } else {
      assert (a + b)[1..] == a[1..] + b;
      TcpRunConcat(TcpSessions.Next(s, a[0], tunnel), a[1..], b, tunnel);
    }
  }

  lemma {:induction false} TcpTakesIn(vs: Views, ps: seq<Mbuf>, classify: Classifier, on: Types, t: nat, r: Route,
                                      u: TcpSessions.Session)
    requires IsTcp(r) && u.view == TcpOf(vs, r)
    ensures var u' := TcpSessions.RunAll(u, TcpArrivals(ps, classify, on, t, r), Tunnelled(r));
      u'.view == TcpOf(ProcessAll(vs, ps, classify, on, t).views, r) && u'.out == u.out
  {
    if ps != [] {
      var n := |ps| - 1;
      var before := TcpArrivals(ps[..n], classify, on, t, r);
      TcpTakesIn(vs, ps[..n], classify, on, t, r, u);
      if RouteOf(classify(ps[n].packetType), on) == r {
        var last := [TcpSessions.Packet(Shown(ps[n], r), t)];
        TcpRunConcat(u, before, last, Tunnelled(r));
        assert last[1..] == [];
      } else {
        assert before + [] == before;
      }
    }
  }

  lemma TcpPutsOut(vs: Views, on: Types, ts: nat, max: nat, r: Route)
    requires IsTcp(r)
    ensures var f := FlushContext(vs, on, ts, max); var room := RoomFor(vs, r, on, ts, max);
      if Enabled(on, r) then
        && TcpOf(f.views, r) == Flush(TcpOf(vs, r), room, Tcp.DrainBy(ts)).view
        && multiset(FlushTcp(TcpOf(vs, r), Tunnelled(r), ts, room)) <= multiset(f.out) + multiset(f.lost)
      else TcpOf(f.views, r) == TcpOf(vs, r)
  {}

  lemma TcpNext(s: Session, e: Event, classify: Classifier, on: Types, r: Route, u: TcpSessions.Session)
    requires IsTcp(r) && u.view == TcpOf(s.views, r)
    ensures var u' := TcpSessions.RunAll(u, TcpEvents(s.views, e, classify, on, r), Tunnelled(r));
      var s' := Next(s, e, classify, on);
      && u'.view == TcpOf(s'.views, r)
      && (multiset(u.out) <= multiset(s.out) + multiset(s.lost)
        ==> multiset(u'.out) <= multiset(s'.out) + multiset(s'.lost))
  {
    match e
    case Arrival(ps, now) => TcpTakesIn(s.views, ps, classify, on, now, r, u);
    case Timeout(types, ts, max) =>
      TcpPutsOut(s.views, Both(types, on), ts, max, r);
      var last := [TcpSessions.Timeout(ts, RoomFor(s.views, r, Both(types, on), ts, max))];
      assert last[1..] == [];
  }

  /** The same for TCP tables. */
  lemma {:induction false} TcpProjection(s: Session, es: seq<Event>, classify: Classifier, on: Types, r: Route,
                                         u: TcpSessions.Session)
    requires IsTcp(r) && u.view == TcpOf(s.views, r) && multiset(u.out) <= multiset(s.out) + multiset(s.lost)
    ensures var u' := TcpSessions.RunAll(u, TcpTrace(s, es, classify, on, r), Tunnelled(r));
      var s' := RunAll(s, es, classify, on);
      u'.view == TcpOf(s'.views, r) && multiset(u'.out) <= multiset(s'.out) + multiset(s'.lost)
    decreases |es|
  {
    if es != [] {
      var now := TcpEvents(s.views, es[0], classify, on, r);
      TcpNext(s, es[0], classify, on, r, u);
      var s1 := Next(s, es[0], classify, on);
      TcpProjection(s1, es[1..], classify, on, r, TcpSessions.RunAll(u, now, Tunnelled(r)));
      TcpRunConcat(u, now, TcpTrace(s1, es[1..], classify, on, r), Tunnelled(r));
    }
  }

  /** Of each packet routed to table `r`, as the table gets it, `ok` holds. */
  ghost predicate TcpArrivalsAre(es: seq<Event>, classify: Classifier, on: Types, r: Route,
                                 ok: TcpSessions.Event -> bool) {
    forall i, j ::
      && 0 <= i < |es| && es[i].Arrival? && 0 <= j < |es[i].ps|
      && RouteOf(classify(es[i].ps[j].packetType), on) == r
      ==> ok(TcpSessions.Packet(Shown(es[i].ps[j], r), es[i].now))
  }

  lemma {:induction false} TcpBurstIs(ps: seq<Mbuf>, classify: Classifier, on: Types, t: nat, r: Route,
                                      ok: TcpSessions.Event -> bool)
    requires forall j :: 0 <= j < |ps| && RouteOf(classify(ps[j].packetType), on) == r ==>
      ok(TcpSessions.Packet(Shown(ps[j], r), t))
    ensures forall e :: e in TcpArrivals(ps, classify, on, t, r) ==> ok(e)
  {
    if ps != [] {
      TcpBurstIs(ps[..|ps| - 1], classify, on, t, r, ok);
    }
  }

  lemma {:induction false} TcpTraceIs(s: Session, es: seq<Event>, classify: Classifier, on: Types, r: Route,
                                      ok: TcpSessions.Event -> bool)
    requires TcpArrivalsAre(es, classify, on, r, ok) && forall e: TcpSessions.Event :: e.Timeout? ==> ok(e)
    ensures forall e :: e in TcpTrace(s, es, classify, on, r) ==> ok(e)
    decreases |es|
  {
    if es != [] {
      if es[0].Arrival? {
        TcpBurstIs(es[0].ps, classify, on, es[0].now, r, ok);
      }
      assert forall i :: 0 <= i < |es| - 1 ==> es[1..][i] == es[i + 1];
      TcpTraceIs(Next(s, es[0], classify, on), es[1..], classify, on, r, ok);
    }
  }

  ghost function Handled(lens: TcpLaws.FlowLens, tunnel: bool): TcpSessions.Event -> bool {
    (e: TcpSessions.Event) => TcpSessions.EventOk(e, lens, tunnel)
  }

  function Acknowledging(lens: TcpLaws.FlowLens): TcpSessions.Event -> bool {
    (e: TcpSessions.Event) => TcpSessions.Acknowledges(e, lens)
  }

  /** The packets routed to table `r` are such as it can handle. */
  ghost predicate TcpArrivalsOk(es: seq<Event>, classify: Classifier, on: Types, r: Route,
                                lens: TcpLaws.FlowLens) {
    TcpArrivalsAre(es, classify, on, r, Handled(lens, Tunnelled(r)))
  }

  /** No packet of those flows that is routed to the plain table carries PSH or FIN. */
  ghost predicate NoPushOrFin(es: seq<Event>, classify: Classifier, on: Types, lens: TcpLaws.FlowLens) {
    TcpArrivalsAre(es, classify, on, Tcp4, Acknowledging(lens))
  }

  lemma TcpTraceOk(s: Session, es: seq<Event>, classify: Classifier, on: Types, r: Route, lens: TcpLaws.FlowLens)
    requires TcpArrivalsOk(es, classify, on, r, lens)
    ensures forall e :: e in TcpTrace(s, es, classify, on, r) ==> TcpSessions.EventOk(e, lens, Tunnelled(r))
  {
    var ok := Handled(lens, Tunnelled(r));
    TcpTraceIs(s, es, classify, on, r, ok);
    forall e | e in TcpTrace(s, es, classify, on, r) ensures TcpSessions.EventOk(e, lens, Tunnelled(r)) {
      assert ok(e);
    }
  }

  /** Then no payload in the plain table is changed. */
  lemma PlainIntact(s: Session, es: seq<Event>, classify: Classifier, on: Types, u: TcpSessions.Session,
                    lens: TcpLaws.FlowLens)
    requires NoPushOrFin(es, classify, on, lens)
    ensures TcpSessions.AllIntact(u, TcpTrace(s, es, classify, on, Tcp4), lens, false)
  {
    var trace := TcpTrace(s, es, classify, on, Tcp4);
    TcpTraceIs(s, es, classify, on, Tcp4, Acknowledging(lens));
    assert forall i :: 0 <= i < |trace| ==> Acknowledging(lens)(trace[i]);
    TcpSessions.AckIntact(u, trace, lens);
  }

  /** In every run of a context each packet that a TCP table took is in exactly one item or
      one packet put out, as `TcpParts.Explains` says, and the payload bytes it took are
      those it holds plus those it put out, each at its sequence number: for tunnelled
      packets always, and for plain ones if no payload is changed. */
  lemma TcpBytesInContext(s: Session, es: seq<Event>, classify: Classifier, on: Types, r: Route, u: TcpSessions.Session,
                          tr: TcpParts.TcpTrace, lens: TcpLaws.FlowLens)
    requires IsTcp(r) && u.view == TcpOf(s.views, r)
    requires multiset(u.out) <= multiset(s.out) + multiset(s.lost)
    requires TcpSessions.Owned(u, lens, Tunnelled(r)) && TcpSessions.Balanced(u, lens, Tunnelled(r))
    requires TcpArrivalsOk(es, classify, on, r, lens) && TcpParts.Explains(tr, u, lens, Tunnelled(r))
    ensures var trace := TcpTrace(s, es, classify, on, r); var tunnel := Tunnelled(r);
      var u' := TcpSessions.RunAll(u, trace, tunnel); var s' := RunAll(s, es, classify, on);
      && TcpSessions.Owned(u', lens, tunnel)
      && TcpParts.Explains(TcpParts.TraceAll(tr, trace, tunnel), u', lens, tunnel)
      && (tunnel || TcpSessions.AllIntact(u, trace, lens, false) ==> TcpSessions.Balanced(u', lens, tunnel))
      && u'.view == TcpOf(s'.views, r) && multiset(u'.out) <= multiset(s'.out) + multiset(s'.lost)
  {
    var trace := TcpTrace(s, es, classify, on, r);
    TcpProjection(s, es, classify, on, r, u);
    TcpTraceOk(s, es, classify, on, r, lens);
    if Tunnelled(r) {
      TcpSessions.TunnelIntact(u, trace, lens);
    }
    TcpSessions.RunBalanced(u, trace, lens, Tunnelled(r));
    TcpParts.RunBuilt(tr, u, trace, lens, Tunnelled(r));
  }

  // ----- From a new context

  /** So in every run of a new context the bytes a UDP table took are those it holds plus
      those of packets that the context put out or dropped. */
  lemma UdpFromNew(entries: nat, es: seq<Event>, classify: Classifier, on: Types, r: Route, lens: UdpLaws.FlowLens)
    requires IsUdp(r) && UdpArrivalsOk(es, classify, on, r, lens)
    ensures var trace := UdpTrace(New(entries), es, classify, on, r);
      var u := UdpSessions.RunAll(UdpSessions.NewTable(entries), trace);
      var s := RunAll(New(entries), es, classify, on);
      && UdpSessions.Balanced(u, lens)
      && UdpParts.Explains(UdpParts.TraceAll(Parts.NewTrace(entries), trace), u, lens)
      && u.view == UdpOf(s.views, r) && multiset(u.out) <= multiset(s.out) + multiset(s.lost)
  {
    var u, tr := UdpSessions.NewTable(entries), Parts.NewTrace(entries);
    UdpSessions.NewBalanced(entries, lens);
    UdpParts.NewExplained(entries, lens);
    UdpBytesInContext(New(entries), es, classify, on, r, u, tr, lens);
  }

  /** The same for a TCP table, with the condition on plain packets put on the arrivals. */
  lemma TcpFromNew(entries: nat, es: seq<Event>, classify: Classifier, on: Types, r: Route, lens: TcpLaws.FlowLens)
    requires IsTcp(r) && TcpArrivalsOk(es, classify, on, r, lens)
    ensures var trace := TcpTrace(New(entries), es, classify, on, r); var tunnel := Tunnelled(r);
      var u := TcpSessions.RunAll(TcpSessions.NewTable(entries), trace, tunnel);
      var s := RunAll(New(entries), es, classify, on);
      && TcpSessions.Owned(u, lens, tunnel)
      && TcpParts.Explains(TcpParts.TraceAll(Parts.NewTrace(entries), trace, tunnel), u, lens, tunnel)
      && (tunnel || NoPushOrFin(es, classify, on, lens) ==> TcpSessions.Balanced(u, lens, tunnel))
      && u.view == TcpOf(s.views, r) && multiset(u.out) <= multiset(s.out) + multiset(s.lost)
  {
    var u, tr := TcpSessions.NewTable(entries), Parts.NewTrace(entries);
    TcpSessions.NewOwned(entries, lens, Tunnelled(r));
    TcpSessions.NewBalanced(entries, lens, Tunnelled(r));
    TcpParts.NewExplained(entries, lens, Tunnelled(r));
    if r.Tcp4? && NoPushOrFin(es, classify, on, lens) {
      PlainIntact(New(entries), es, classify, on, u, lens);
    }
    TcpBytesInContext(New(entries), es, classify, on, r, u, tr, lens);
  }

  // ----- What the packets taken arrived as

  /** Packet `m` is packet `p` as it arrived, for a plain one up to the length that its IPv4
      header gives. */
  predicate ArrivedAs(p: Mbuf, m: Mbuf, r: Route) {
    var n := p.lens.l2 + p.hdr.totalLen;
    m == if r.Tcp4? && n < |p.data| then p.(data := p.data[..n]) else p
  }

  /** Packet `m` arrived in the run, as one of those that go to table `r`. */
  ghost predicate Came(es: seq<Event>, classify: Classifier, on: Types, r: Route, m: Mbuf) {
    exists i, j :: 0 <= i < |es| && es[i].Arrival? && 0 <= j < |es[i].ps| && CameAt(es[i].ps[j], classify, on, r, m)
  }

  predicate CameAt(p: Mbuf, classify: Classifier, on: Types, r: Route, m: Mbuf) {
    RouteOf(classify(p.packetType), on) == r && ArrivedAs(p, m, r)
  }

  ghost function CameBy(es: seq<Event>, classify: Classifier, on: Types, r: Route): TcpSessions.Event -> bool {
    (e: TcpSessions.Event) =>
      e.Packet? && !TcpSessions.Rejected(e.p, Tunnelled(r)) ==> Came(es, classify, on, r, e.p)
  }

  lemma ShownArrived(p: Mbuf, r: Route)
    requires !TcpSessions.Rejected(Shown(p, r), Tunnelled(r))
    ensures ArrivedAs(p, Shown(p, r), r)
  {}

  lemma AllCame(es: seq<Event>, classify: Classifier, on: Types, r: Route)
    ensures TcpArrivalsAre(es, classify, on, r, CameBy(es, classify, on, r))
  {
    var ok := CameBy(es, classify, on, r);
    forall i, j |
        && 0 <= i < |es| && es[i].Arrival? && 0 <= j < |es[i].ps|
        && RouteOf(classify(es[i].ps[j].packetType), on) == r
      ensures ok(TcpSessions.Packet(Shown(es[i].ps[j], r), es[i].now))
    {
      var p := es[i].ps[j];
      if !TcpSessions.Rejected(Shown(p, r), Tunnelled(r)) {
        ShownArrived(p, r);
        assert CameAt(p, classify, on, r, Shown(p, r));
      }
    }
  }

  lemma {:induction false} TakenFrom(s: TcpSessions.Session, es: seq<TcpSessions.Event>, tunnel: bool, m: Mbuf)
    returns (e: TcpSessions.Event)
    requires m in TcpSessions.RunAll(s, es, tunnel).taken && m !in s.taken
    ensures e in es && e.Packet? && e.p == m && !TcpSessions.Rejected(m, tunnel)
    decreases |es|
  {
    var s' := TcpSessions.Next(s, es[0], tunnel);
    if m in s'.taken {
      e := es[0];
    } else {
      e := TakenFrom(s', es[1..], tunnel, m);
    }
  }

  /** In every run of a new context, the packets that a TCP table takes, whose bytes it keeps,
      are packets that arrived for it, plain ones without padding. */
  lemma TakenCame(entries: nat, es: seq<Event>, classify: Classifier, on: Types, r: Route)
    requires IsTcp(r)
    ensures var trace := TcpTrace(New(entries), es, classify, on, r);
      var u := TcpSessions.RunAll(TcpSessions.NewTable(entries), trace, Tunnelled(r));
      forall m :: m in u.taken ==> Came(es, classify, on, r, m)
  {
    var trace, ok := TcpTrace(New(entries), es, classify, on, r), CameBy(es, classify, on, r);
    var u := TcpSessions.RunAll(TcpSessions.NewTable(entries), trace, Tunnelled(r));
    AllCame(es, classify, on, r);
    TcpTraceIs(New(entries), es, classify, on, r, ok);
    forall m | m in u.taken ensures Came(es, classify, on, r, m) {
      var e := TakenFrom(TcpSessions.NewTable(entries), trace, Tunnelled(r), m);
      assert ok(e);
    }
  }
}
