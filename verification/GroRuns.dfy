/**
  Whole runs of a context: any interleaving of `rte_gro_reassemble` and
  `rte_gro_timeout_flush`.
 */
module GroRuns {
  import opened Packets
  import opened FlowTable
  import opened FlushLoop
  import opened Gro
  import opened GroLaws
  import opened GroBursts
  import opened GroDriver
  import Tcp
  import TcpLaws
  import Udp
  import UdpLaws

  // ----- One flush of a context

  lemma FlushContextOk(vs: Views, on: Types, ts: nat, max: nat)
    requires WfAll(vs)
    ensures var f := FlushContext(vs, on, ts, max);
      && WfAll(f.views) && |f.out| <= max && |f.lost| <= max
      && |f.out| + |f.lost| + Count(f.views) <= Count(vs)
      && Buffers(vs) == SumBuffers(f.lost) + (SumBuffers(f.out) + Buffers(f.views))
  {
    var d0 := Drained(vs, []);
    var d1 := FlushMore(d0, VxlanTcp, on, ts, max);
    MoreOk(d0, VxlanTcp, on, ts, max);
    MoreOk(d1, VxlanUdp, on, ts, max);
    var v := FlushVxlan(vs, on, ts, max);
    FlushOneOk(v.views, GtpTcp, ts, Less(max, |v.out|));
    var g := FlushGtpTcp(v, on, ts, max);
    MoreOk(g, GtpUdp, on, ts, max);
    MoreOk(FlushMore(g, GtpUdp, on, ts, max), Tcp4, on, ts, max);
    assert AllBuffers(d0) == Buffers(vs);
  }

  lemma Alone<U>(a: multiset<U>, b: multiset<U>)
    ensures b == a + b <==> a == multiset{}
  {
    assert (a + b) - b == a;
    assert b - b == multiset{};
  }

  predicate TcpQuiet(ts: nat, c: seq<Tcp.TcpItem>) { c == [] || c[0].startTime > ts }

  predicate UdpQuiet(ts: nat, c: seq<Udp.UdpItem>) { c == [] || c[0].startTime > ts }

  /** A VXLAN type is flushed and the head of one of its flows is due. */
  ghost predicate VxlanDue(vs: Views, on: Types, ts: nat) {
    || (on.vxlanTcp && !Chains(vs.vxlanTcp, c => TcpQuiet(ts, c)))
    || (on.vxlanUdp && !Chains(vs.vxlanUdp, c => UdpQuiet(ts, c)))
  }

  /** When packets are lost: GTP TCP is flushed as well, and there is a slot for them. */
  lemma LostWhen(vs: Views, on: Types, ts: nat, max: nat)
    ensures FlushContext(vs, on, ts, max).lost != [] <==> on.gtpTcp && max > 0 && VxlanDue(vs, on, ts)
  {
    if max > 0 {
      FlushQuiet(vs.vxlanTcp, max, Tcp.DrainBy(ts), c => TcpQuiet(ts, c));
      FlushQuiet(vs.vxlanUdp, max, Udp.DrainBy(ts), c => UdpQuiet(ts, c));
    }
  }

  // ----- Items own buffers

  predicate TcpOwns(k: Tcp.TcpKey, it: Tcp.TcpItem) { it.firstseg.segs != [] }

  predicate UdpOwns(k: Udp.UdpKey, it: Udp.UdpItem) { it.firstseg.segs != [] }

  /** Each item of a VXLAN table has a buffer. */
  ghost predicate VxlanOwns(vs: Views) { AllHeld(vs.vxlanTcp, TcpOwns) && AllHeld(vs.vxlanUdp, UdpOwns) }

  ghost predicate HaveBuffers(ms: seq<Mbuf>) { forall i :: 0 <= i < |ms| ==> ms[i].segs != [] }

  lemma {:induction false} FuseOwns(k: Udp.UdpKey, c: seq<Udp.UdpItem>)
    requires c != [] && All(k, c, UdpOwns)
    ensures All(k, Udp.Fuse(c), UdpOwns)
    decreases |c|
  {
    var d := Udp.FuseOnce(c);
    if |c| > 1 && d != c {
      assert forall i :: 1 <= i < |d| ==> d[i] == c[i + 1];
      FuseOwns(k, d);
    }
  }

  lemma EmittedHave<K, I>(out: seq<Tagged<K, I>>, finish: I -> Mbuf, p: (K, I) -> bool)
    requires AllOut(out, p) && forall k, it :: p(k, it) ==> finish(it).segs != []
    ensures HaveBuffers(Emitted(out, finish))
  {}

  lemma UdpOutOwns(v: Udp.UdpView, ts: nat, room: nat)
    requires AllHeld(v, UdpOwns)
    ensures HaveBuffers(FlushUdp(v, ts, room)) && AllHeld(Flush(v, room, Udp.DrainBy(ts)).view, UdpOwns)
  {
    forall i, n: nat | 0 <= i < |v| && v[i].Flow?
      ensures var d := Udp.DrainBy(ts)(v[i].chain, n); All(v[i].key, d.out, UdpOwns) && All(v[i].key, d.rest, UdpOwns)
    {
      forall m ensures UdpLaws.FuseKeeps(v[i].key, m, UdpOwns, UdpLaws.ItemBuffers) {
        if m != [] && All(v[i].key, m, UdpOwns) {
          FuseOwns(v[i].key, m);
          UdpLaws.FuseBuffers(v[i].key, m);
        }
      }
      UdpLaws.DrainKeeps(v[i].key, v[i].chain, ts, n, UdpOwns, UdpLaws.ItemBuffers);
    }
    FlowTable.FlushAll(v, room, Udp.DrainBy(ts), UdpOwns);
    EmittedHave(Flush(v, room, Udp.DrainBy(ts)).out, Udp.Finish, UdpOwns);
  }

  lemma TcpOutOwns(v: Tcp.TcpView, tunnel: bool, ts: nat, room: nat)
    requires AllHeld(v, TcpOwns)
    ensures HaveBuffers(FlushTcp(v, tunnel, ts, room)) && AllHeld(Flush(v, room, Tcp.DrainBy(ts)).view, TcpOwns)
  {
    forall i, n: nat | 0 <= i < |v| && v[i].Flow?
      ensures var d := Tcp.DrainBy(ts)(v[i].chain, n); All(v[i].key, d.out, TcpOwns) && All(v[i].key, d.rest, TcpOwns)
    {
      TcpLaws.DrainKeeps(v[i].key, v[i].chain, ts, n, TcpOwns, TcpLaws.ItemBuffers);
    }
    FlowTable.FlushAll(v, room, Tcp.DrainBy(ts), TcpOwns);
    EmittedHave(Flush(v, room, Tcp.DrainBy(ts)).out, Tcp.FinishBy(tunnel), TcpOwns);
  }

  lemma SomeBuffer(ms: seq<Mbuf>)
    requires HaveBuffers(ms)
    ensures SumBuffers(ms) == multiset{} <==> ms == []
  {
    if ms != [] {
      assert ms[0].segs[0] in SumBuffers(ms);
    }
  }

  lemma LostOwns(vs: Views, on: Types, ts: nat, max: nat)
    requires VxlanOwns(vs)
    ensures HaveBuffers(FlushContext(vs, on, ts, max).lost)
  {
    TcpOutOwns(vs.vxlanTcp, true, ts, max);
    var d := FlushMore(Drained(vs, []), VxlanTcp, on, ts, max);
    UdpOutOwns(vs.vxlanUdp, ts, Less(max, |d.out|));
  }

  /** A flush of a context loses no buffer if and only if it does not have GTP TCP to flush,
      or has no slot, or finds no due head in the VXLAN tables it flushes. */
  lemma FlushContextConserves(vs: Views, on: Types, ts: nat, max: nat)
    requires WfAll(vs) && VxlanOwns(vs)
    ensures var f := FlushContext(vs, on, ts, max);
      SumBuffers(f.out) + Buffers(f.views) == Buffers(vs) <==> !(on.gtpTcp && max > 0 && VxlanDue(vs, on, ts))
  {
    FlushContextOk(vs, on, ts, max);
    var f := FlushContext(vs, on, ts, max);
    Alone(SumBuffers(f.lost), SumBuffers(f.out) + Buffers(f.views));
    LostWhen(vs, on, ts, max);
    LostOwns(vs, on, ts, max);
    SomeBuffer(f.lost);
  }

  /** With no VXLAN type and a slot for a packet there is room, and nothing is lost. */
  lemma NoVxlan(vs: Views, on: Types, ts: nat, max: nat)
    requires !on.vxlanTcp && !on.vxlanUdp && max > 0
    ensures HasRoom(vs, on, ts, max) && FlushContext(vs, on, ts, max).lost == []
  {}

  // ----- Runs

  datatype Event = Arrival(ps: seq<Mbuf>, now: nat) | Timeout(types: Types, ts: nat, max: nat)

  /** A context, with all packets given to it, handed back by it, put out by it, and
      dropped from the result of a flush. */
  datatype Session = Session(views: Views, given: seq<Mbuf>, back: seq<Mbuf>, out: seq<Mbuf>, lost: seq<Mbuf>)

  function Next(s: Session, e: Event, classify: Classifier, on: Types): Session {
    match e
    case Arrival(ps, now) =>
      var r := ProcessAll(s.views, ps, classify, on, now);
      s.(views := r.views, given := s.given + ps, back := s.back + r.back)
    case Timeout(types, ts, max) =>
      var f := FlushContext(s.views, Both(types, on), ts, max);
      s.(views := f.views, out := s.out + f.out, lost := s.lost + f.lost)
  }

  function RunAll(s: Session, es: seq<Event>, classify: Classifier, on: Types): Session
    decreases |es|
  {
    if es == [] then s else RunAll(Next(s, es[0], classify, on), es[1..], classify, on)
  }

  /** Every buffer given is handed back, in one item, in one packet put out, or lost. */
  ghost predicate Owned(s: Session) {
    && WfAll(s.views)
    && SumBuffers(s.given) == SumBuffers(s.back) + Buffers(s.views) + SumBuffers(s.out) + SumBuffers(s.lost)
  }

  lemma GivenMore<U>(given: multiset<U>, back: multiset<U>, held: multiset<U>, out: multiset<U>, lost: multiset<U>,
                     x: multiset<U>, back': multiset<U>, held': multiset<U>)
    requires given == back + held + out + lost && x + held == back' + held'
    ensures given + x == (back + back') + held' + out + lost
  {
    assert given + x == back + (x + held) + out + lost;
  }

  lemma OutMore<U>(given: multiset<U>, back: multiset<U>, held: multiset<U>, out: multiset<U>, lost: multiset<U>,
                   out': multiset<U>, lost': multiset<U>, held': multiset<U>)
    requires given == back + held + out + lost && held == lost' + (out' + held')
    ensures given == back + held' + (out + out') + (lost + lost')
  {}

  lemma NextOwned(s: Session, e: Event, classify: Classifier, on: Types)
    requires Owned(s)
    ensures Owned(Next(s, e, classify, on))
  {
    match e
    case Arrival(ps, now) =>
      var r := ProcessAll(s.views, ps, classify, on, now);
      ProcessAllOk(s.views, ps, classify, on, now);
      SumBuffersConcat(s.given, ps);
      SumBuffersConcat(s.back, r.back);
      GivenMore(SumBuffers(s.given), SumBuffers(s.back), Buffers(s.views), SumBuffers(s.out), SumBuffers(s.lost),
                SumBuffers(ps), SumBuffers(r.back), Buffers(r.views));
    case Timeout(types, ts, max) =>
      var f := FlushContext(s.views, Both(types, on), ts, max);
      FlushContextOk(s.views, Both(types, on), ts, max);
      SumBuffersConcat(s.out, f.out);
      SumBuffersConcat(s.lost, f.lost);
      OutMore(SumBuffers(s.given), SumBuffers(s.back), Buffers(s.views), SumBuffers(s.out), SumBuffers(s.lost),
              SumBuffers(f.out), SumBuffers(f.lost), Buffers(f.views));
  }

  lemma IdleNext(s: Session, e: Event, classify: Classifier, on: Types)
    requires WfAll(s.views) && Idle(s.views, on)
    ensures Idle(Next(s, e, classify, on).views, on)
  {
    match e
    case Arrival(ps, now) => IdleAll(s.views, ps, classify, on, now);
    case Timeout(types, ts, max) => IdleFlush(s.views, Both(types, on), on, ts, max);
  }

  lemma {:induction false} IdleAll(vs: Views, ps: seq<Mbuf>, classify: Classifier, on: Types, t: nat)
    requires Idle(vs, on)
    ensures Idle(ProcessAll(vs, ps, classify, on, t).views, on)
  {
    if ps != [] {
      var n := |ps| - 1;
      IdleAll(vs, ps[..n], classify, on, t);
      var v := ProcessAll(vs, ps[..n], classify, on, t).views;
      var route := RouteOf(classify(ps[n].packetType), on);
      forall r: Route | !Enabled(on, r) ensures TotalOf(Process(v, route, ps[n], t).views, r) == TotalOf(v, r) {}
    }
  }

  lemma IdleMore(d: Drained, r: Route, few: Types, on: Types, ts: nat, max: nat)
    requires Idle(d.views, on) && forall r :: Enabled(few, r) ==> Enabled(on, r)
    ensures Idle(FlushMore(d, r, few, ts, max).views, on)
  {
    forall r': Route | !Enabled(on, r')
      ensures TotalOf(FlushMore(d, r, few, ts, max).views, r') == TotalOf(d.views, r') {}
  }

  lemma IdleFlush(vs: Views, few: Types, on: Types, ts: nat, max: nat)
    requires Idle(vs, on) && forall r :: Enabled(few, r) ==> Enabled(on, r)
    ensures Idle(FlushContext(vs, few, ts, max).views, on)
  {
    var d0 := Drained(vs, []);
    var v := FlushVxlan(vs, few, ts, max);
    var g := FlushGtpTcp(v, few, ts, max);
    IdleMore(d0, VxlanTcp, few, on, ts, max);
    IdleMore(FlushMore(d0, VxlanTcp, few, ts, max), VxlanUdp, few, on, ts, max);
    IdleMore(v, GtpTcp, few, on, ts, max);
    assert g.views == FlushMore(v, GtpTcp, few, ts, max).views;
    IdleMore(g, GtpUdp, few, on, ts, max);
    IdleMore(FlushMore(g, GtpUdp, few, ts, max), Tcp4, few, on, ts, max);
  }

  /** Flushes of a context cannot lose packets if it has no VXLAN type or no GTP TCP. */
  predicate Safe(on: Types) { (!on.vxlanTcp && !on.vxlanUdp) || !on.gtpTcp }

  /** Whole-run conservation: in every run each buffer given to a context is handed back,
      in exactly one item, in exactly one packet put out, or dropped from a result, the last never
      if the types are safe; and the packet count is the number of items in all tables. */
  lemma {:induction false} RunConserves(s: Session, es: seq<Event>, classify: Classifier, on: Types)
    requires Owned(s) && Idle(s.views, on) && (Safe(on) ==> s.lost == [])
    ensures var s' := RunAll(s, es, classify, on);
      Owned(s') && CountOn(s'.views, on) == Count(s'.views) && (Safe(on) ==> s'.lost == [])
    decreases |es|
  {
    if es == [] {
      CountIdle(s.views, on);
    } else {
      NextOwned(s, es[0], classify, on);
      IdleNext(s, es[0], classify, on);
      RunConserves(Next(s, es[0], classify, on), es[1..], classify, on);
    }
  }

  lemma CountIdle(vs: Views, on: Types)
    requires Idle(vs, on)
    ensures CountOn(vs, on) == Count(vs)
  {
    assert TotalOf(vs, VxlanTcp) == Total(vs.vxlanTcp) && TotalOf(vs, VxlanUdp) == Total(vs.vxlanUdp);
    assert TotalOf(vs, GtpTcp) == Total(vs.gtpTcp) && TotalOf(vs, GtpUdp) == Total(vs.gtpUdp);
    assert TotalOf(vs, Tcp4) == Total(vs.tcp4);
  }

  /** A context that has seen nothing. */
  function New(entries: nat): Session { Session(NoFlows(entries), [], [], [], []) }

  lemma NewContext(entries: nat, on: Types)
    ensures Owned(New(entries)) && Idle(NoFlows(entries), on)
  {
    NoFlowsReady(entries, on);
  }

  /** So it is in every run of a new context. */
  lemma RunFromNew(entries: nat, es: seq<Event>, classify: Classifier, on: Types)
    ensures var s := RunAll(New(entries), es, classify, on);
      Owned(s) && CountOn(s.views, on) == Count(s.views) && (Safe(on) ==> s.lost == [])
  {
    NewContext(entries, on);
    RunConserves(New(entries), es, classify, on);
  }

  // ----- Items go on owning buffers

  lemma UdpTakesOwned(v: Udp.UdpView, p: Mbuf, t: nat)
    requires AllHeld(v, UdpOwns) && p.segs != []
    ensures AllHeld(Udp.Accept(v, p, t).view, UdpOwns)
  {
    if !Udp.Rejected(p) {
      var k := Udp.KeyOf(p.hdr);
      var c := Lookup(v, k);
      UdpLaws.DecideStops(c, p, 0);
      assert All(k, c, UdpOwns);
      StoreAll(v, k, Udp.Fresh(p, t), Udp.Decide(c, p, 0), UdpOwns);
    }
  }

  lemma TcpTakesOwned(v: Tcp.TcpView, p: Mbuf, t: nat)
    requires AllHeld(v, TcpOwns) && p.segs != []
    ensures AllHeld(Tcp.TunnelAccept(v, p, t).view, TcpOwns)
  {
    if !Tcp.TunnelRejected(p) {
      var k := Tcp.KeyOf(p.hdr, true);
      var c := Lookup(v, k);
      TcpLaws.DecideStops(c, p, 0, true);
      assert All(k, c, TcpOwns);
      StoreAll(v, k, Tcp.Fresh(p, t, true), Tcp.Decide(c, p, 0, true), TcpOwns);
    }
  }

  lemma {:induction false} ArrivalsOwned(vs: Views, ps: seq<Mbuf>, classify: Classifier, on: Types, t: nat)
    requires VxlanOwns(vs) && HaveBuffers(ps)
    ensures VxlanOwns(ProcessAll(vs, ps, classify, on, t).views)
  {
    if ps != [] {
      var n := |ps| - 1;
      var v := ProcessAll(vs, ps[..n], classify, on, t).views;
      ArrivalsOwned(vs, ps[..n], classify, on, t);
      UdpTakesOwned(v.vxlanUdp, ps[n], t);
      TcpTakesOwned(v.vxlanTcp, ps[n], t);
    }
  }

  lemma FlushOwned(vs: Views, on: Types, ts: nat, max: nat)
    requires VxlanOwns(vs)
    ensures VxlanOwns(FlushContext(vs, on, ts, max).views)
  {
    TcpOutOwns(vs.vxlanTcp, true, ts, max);
    var d := FlushMore(Drained(vs, []), VxlanTcp, on, ts, max);
    UdpOutOwns(vs.vxlanUdp, ts, Less(max, |d.out|));
  }

  /** In every run of a context each VXLAN item owns a buffer, as long as each packet does;
      so in every run `FlushContextConserves` says which flushes lose one. */
  lemma {:induction false} RunOwns(s: Session, es: seq<Event>, classify: Classifier, on: Types)
    requires VxlanOwns(s.views) && forall i :: 0 <= i < |es| && es[i].Arrival? ==> HaveBuffers(es[i].ps)
    ensures VxlanOwns(RunAll(s, es, classify, on).views)
    decreases |es|
  {
    if es != [] {
      match es[0] {
        case Arrival(ps, now) => ArrivalsOwned(s.views, ps, classify, on, now);
        case Timeout(types, ts, max) => FlushOwned(s.views, Both(types, on), ts, max);
      }
      RunOwns(Next(s, es[0], classify, on), es[1..], classify, on);
    }
  }
}
