/**
  What the driver keeps, whatever the packets are like: structure, packet counts, and
  the buffers packets are made of.
 */
module GroLaws {
  import opened Packets
  import opened FlowTable
  import opened FlushLoop
  import opened Gro
  import Tcp
  import TcpLaws
  import TcpSessions
  import Udp
  import UdpLaws

  ghost predicate WfAll(vs: Views) {
    Wf(vs.vxlanTcp) && Wf(vs.vxlanUdp) && Wf(vs.gtpTcp) && Wf(vs.gtpUdp) && Wf(vs.tcp4)
  }

  ghost function TcpBuffers(v: Tcp.TcpView): multiset<nat> { Held(v, TcpLaws.ItemBuffers) }

  ghost function UdpBuffers(v: Udp.UdpView): multiset<nat> { Held(v, UdpLaws.ItemBuffers) }

  ghost function BuffersOf(vs: Views, r: Route): multiset<nat> {
    match r
    case VxlanTcp => TcpBuffers(vs.vxlanTcp)
    case VxlanUdp => UdpBuffers(vs.vxlanUdp)
    case GtpTcp => TcpBuffers(vs.gtpTcp)
    case GtpUdp => UdpBuffers(vs.gtpUdp)
    case Tcp4 => TcpBuffers(vs.tcp4)
    case Unprocessed => multiset{}
  }

  /** All buffers in the tables. */
  ghost function Buffers(vs: Views): multiset<nat> {
    BuffersOf(vs, VxlanTcp) + BuffersOf(vs, VxlanUdp) + BuffersOf(vs, GtpTcp) + BuffersOf(vs, GtpUdp)
      + BuffersOf(vs, Tcp4)
  }

  /** Only the table of type `r` differs. */
  ghost predicate SameBut(vs: Views, vs': Views, r: Route) {
    forall r' :: r' != r ==> BuffersOf(vs', r') == BuffersOf(vs, r') && TotalOf(vs', r') == TotalOf(vs, r')
  }

  /** What one table gains, all tables gain. */
  lemma Gains(vs: Views, vs': Views, r: Route, x: multiset<nat>, n: nat)
    requires SameBut(vs, vs', r) && BuffersOf(vs', r) == BuffersOf(vs, r) + x && TotalOf(vs', r) == TotalOf(vs, r) + n
    ensures Buffers(vs') == Buffers(vs) + x && Count(vs') == Count(vs) + n
  {
    if r == Unprocessed {
      assert x == multiset{} by { assert multiset{} + x == x; }
    }
    GainsBuffers(vs, vs', r, x);
    CountAll(vs);
    CountAll(vs');
  }

  lemma GainsBuffers(vs: Views, vs': Views, r: Route, x: multiset<nat>)
    requires forall r' :: r' != r ==> BuffersOf(vs', r') == BuffersOf(vs, r')
    requires BuffersOf(vs', r) == BuffersOf(vs, r) + x && (r == Unprocessed ==> x == multiset{})
    ensures Buffers(vs') == Buffers(vs) + x
  {
    AnyOfFive(BuffersOf(vs, VxlanTcp), BuffersOf(vs, VxlanUdp), BuffersOf(vs, GtpTcp), BuffersOf(vs, GtpUdp),
      BuffersOf(vs, Tcp4), x);
  }

  lemma CountAll(vs: Views)
    ensures Count(vs) == TotalOf(vs, VxlanTcp) + TotalOf(vs, VxlanUdp) + TotalOf(vs, GtpTcp) + TotalOf(vs, GtpUdp)
      + TotalOf(vs, Tcp4)
  {}

  lemma AnyOfFive<U>(a: multiset<U>, b: multiset<U>, c: multiset<U>, d: multiset<U>, e: multiset<U>, x: multiset<U>)
    ensures (a + x) + b + c + d + e == (a + b + c + d + e) + x
    ensures a + (b + x) + c + d + e == (a + b + c + d + e) + x
    ensures a + b + (c + x) + d + e == (a + b + c + d + e) + x
    ensures a + b + c + (d + x) + e == (a + b + c + d + e) + x
    ensures a + b + c + d + (e + x) == (a + b + c + d + e) + x
  {
    var s := a + b + c + d + e;
    assert (a + x) + b + c + d + e == s + x;
    assert a + (b + x) + c + d + e == s + x;
    assert a + b + (c + x) + d + e == s + x;
  }

  // ----- One packet

  /** Structure, count and buffers after a call on a table of `n` items holding `held`. */
  ghost predicate Took(ret: int, p: Mbuf, held: multiset<nat>, n: nat, held': multiset<nat>, n': nat) {
    && (ret == -1 || ret == 0 || ret == 1)
    && n' == (if ret == 0 then n + 1 else n)
    && held' == held + (if ret == -1 then multiset{} else multiset(p.segs))
  }

  lemma UdpTakes(v: Udp.UdpView, p: Mbuf, t: nat)
    requires Wf(v)
    ensures var s := Udp.Accept(v, p, t);
      Wf(s.view) && Took(s.ret, p, UdpBuffers(v), Total(v), UdpBuffers(s.view), Total(s.view))
  {
    if !Udp.Rejected(p) {
      var k := Udp.KeyOf(p.hdr);
      var c := Lookup(v, k);
      StoreKeepsWf(v, k, Udp.Fresh(p, t), Udp.Decide(c, p, 0));
      UdpLaws.DecideStops(c, p, 0);
      StoreHeld(v, k, Udp.Fresh(p, t), Udp.Decide(c, p, 0), UdpLaws.ItemBuffers);
    }
  }

  lemma TcpStores(v: Tcp.TcpView, p: Mbuf, t: nat, tunnel: bool)
    requires Wf(v)
    ensures var s := TcpLaws.StoreScanned(v, p, t, tunnel);
      Wf(s.view) && Took(s.ret, p, TcpBuffers(v), Total(v), TcpBuffers(s.view), Total(s.view))
  {
    var k := Tcp.KeyOf(p.hdr, tunnel);
    var c := Lookup(v, k);
    StoreKeepsWf(v, k, Tcp.Fresh(p, t, tunnel), Tcp.Decide(c, p, 0, tunnel));
    TcpLaws.DecideStops(c, p, 0, tunnel);
    StoreHeld(v, k, Tcp.Fresh(p, t, tunnel), Tcp.Decide(c, p, 0, tunnel), TcpLaws.ItemBuffers);
  }

  lemma HeadDueHolds(v: Tcp.TcpView, p: Mbuf)
    requires Wf(v)
    ensures var v' := Tcp.HeadDue(v, p); Wf(v') && Total(v') == Total(v) && TcpBuffers(v') == TcpBuffers(v)
  {
    var i, v' := Find(v, Tcp.KeyOf(p.hdr, false)), Tcp.HeadDue(v, p);
    if v' != v {
      var c := v[i].chain;
      SlotWf(v, i, v'[i]);
      assert c[0 := v'[i].chain[0]][1..] == c[1..];
      HeldSlot(v, i, TcpLaws.ItemBuffers);
      HeldUpdate(v, i, v'[i], TcpLaws.ItemBuffers);
    }
  }

  lemma TcpTakes(v: Tcp.TcpView, p: Mbuf, t: nat, tunnel: bool)
    requires Wf(v)
    ensures var s := TcpSessions.Accept(v, p, t, tunnel);
      Wf(s.view) && Took(s.ret, p, TcpBuffers(v), Total(v), TcpBuffers(s.view), Total(s.view))
  {
    TcpSessions.AcceptCases(v, p, t, tunnel);
    if TcpSessions.Accept(v, p, t, tunnel) != Stored(v, -1) {
      if !tunnel {
        HeadDueHolds(v, p);
      }
      TcpStores(TcpSessions.Scanned(v, p, tunnel), p, t, tunnel);
    }
  }

  lemma ProcessOk(vs: Views, r: Route, p: Mbuf, t: nat)
    requires WfAll(vs)
    ensures var s := Process(vs, r, p, t);
      && WfAll(s.views) && s.p.segs == p.segs
      && Took(s.ret, p, Buffers(vs), Count(vs), Buffers(s.views), Count(s.views))
  {
    TakesOne(vs, r, p, t);
    OnlyOne(vs, r, p, t);
    var s := Process(vs, r, p, t);
    Gains(vs, s.views, r, if s.ret == -1 then multiset{} else multiset(p.segs), if s.ret == 0 then 1 else 0);
  }

  lemma OnlyOne(vs: Views, r: Route, p: Mbuf, t: nat)
    ensures SameBut(vs, Process(vs, r, p, t).views, r)
  {}

  lemma TakesOne(vs: Views, r: Route, p: Mbuf, t: nat)
    requires WfAll(vs)
    ensures var s := Process(vs, r, p, t);
      && WfAll(s.views) && s.p.segs == p.segs
      && Took(s.ret, p, BuffersOf(vs, r), TotalOf(vs, r), BuffersOf(s.views, r), TotalOf(s.views, r))
  {
    match r
    case VxlanTcp => TcpTakes(vs.vxlanTcp, p, t, true);
    case VxlanUdp => UdpTakes(vs.vxlanUdp, p, t);
    case GtpTcp => TcpTakes(vs.gtpTcp, p, t, true);
    case GtpUdp => UdpTakes(vs.gtpUdp, p, t);
    case Tcp4 => TcpTakes(vs.tcp4, Tcp.AfterTrim(p), t, false);
    case Unprocessed => assert BuffersOf(vs, r) + multiset{} == BuffersOf(vs, r);
  }

  /** After the loop: of the packets, some come back, some were merged and the others
      are items; no buffer is lost or duplicated. */
  ghost predicate Accounts(vs: Views, ps: seq<Mbuf>, r: Progress) {
    && WfAll(r.views) && |r.seen| == |ps|
    && |ps| + Count(vs) == |r.back| + r.merged + Count(r.views)
    && SumBuffers(ps) + Buffers(vs) == SumBuffers(r.back) + Buffers(r.views)
    && (|r.back| == |ps| ==> r.back == r.seen)
  }

  lemma {:induction false} ProcessAllOk(vs: Views, ps: seq<Mbuf>, classify: Classifier, on: Types, t: nat)
    requires WfAll(vs)
    ensures Accounts(vs, ps, ProcessAll(vs, ps, classify, on, t))
  {
    if ps != [] {
      ProcessAllOk(vs, ps[..|ps| - 1], classify, on, t);
      AccountsNext(vs, ps, classify, on, t);
    } else {
      assert SumBuffers([]) + Buffers(vs) == Buffers(vs);
    }
  }

  lemma AccountsNext(vs: Views, ps: seq<Mbuf>, classify: Classifier, on: Types, t: nat)
    requires ps != [] && Accounts(vs, ps[..|ps| - 1], ProcessAll(vs, ps[..|ps| - 1], classify, on, t))
    ensures Accounts(vs, ps, ProcessAll(vs, ps, classify, on, t))
  {
    var n := |ps| - 1;
    var r := ProcessAll(vs, ps[..n], classify, on, t);
    var route := RouteOf(classify(ps[n].packetType), on);
    ProcessOk(r.views, route, ps[n], t);
    OneMore(vs, ps, r, Process(r.views, route, ps[n], t), n);
  }

  lemma OneMore(vs: Views, ps: seq<Mbuf>, r: Progress, s: Processed, n: nat)
    requires |ps| == n + 1 && Accounts(vs, ps[..n], r) && |r.back| <= n && WfAll(s.views) && s.p.segs == ps[n].segs
    requires Took(s.ret, ps[n], Buffers(r.views), Count(r.views), Buffers(s.views), Count(s.views))
    ensures Accounts(vs, ps, Progress(s.views, if s.ret < 0 then r.back + [s.p] else r.back, r.seen + [s.p],
                                      if s.ret > 0 then r.merged + 1 else r.merged))
  {
    var x := multiset(ps[n].segs);
    SumBuffersMore(r.back, s.p);
    SumBuffersLast(ps);
    Balance(SumBuffers(ps[..n]), Buffers(vs), SumBuffers(r.back), Buffers(r.views), x);
    Nothing(Buffers(r.views));
  }

  lemma Nothing<U>(a: multiset<U>)
    ensures a + multiset{} == a
  {}

  lemma Balance<U>(given: multiset<U>, held: multiset<U>, back: multiset<U>, held': multiset<U>, x: multiset<U>)
    requires given + held == back + held'
    ensures (given + x) + held == (back + x) + held' && (given + x) + held == back + (held' + x)
  {
    assert (given + x) + held == (given + held) + x;
    assert (back + x) + held' == (back + held') + x == back + (held' + x);
  }

  // ----- Draining

  /** A flush of a table of `n` items holding `held`. */
  ghost predicate PutOut(out: seq<Mbuf>, room: nat, held: multiset<nat>, n: nat, held': multiset<nat>, n': nat) {
    |out| <= room && |out| + n' <= n && held == SumBuffers(out) + held'
  }

  lemma {:induction false} EmittedBuffers<K, I>(out: seq<Tagged<K, I>>, finish: I -> Mbuf, f: (K, I) -> multiset<nat>)
    requires forall k, it :: f(k, it) == multiset(finish(it).segs)
    ensures SumBuffers(Emitted(out, finish)) == InOut(out, f)
  {
    if out != [] {
      assert Emitted(out, finish)[1..] == Emitted(out[1..], finish);
      EmittedBuffers(out[1..], finish, f);
    }
  }

  lemma TcpPutsOut(v: Tcp.TcpView, tunnel: bool, ts: nat, room: nat)
    requires Wf(v)
    ensures var v' := Flush(v, room, Tcp.DrainBy(ts)).view;
      Wf(v') && PutOut(FlushTcp(v, tunnel, ts, room), room, TcpBuffers(v), Total(v), TcpBuffers(v'), Total(v'))
  {
    forall i, n: nat | 0 <= i < |v| && v[i].Flow?
      ensures Conserves(v[i].key, v[i].chain, Tcp.DrainBy(ts)(v[i].chain, n), TcpLaws.ItemBuffers)
        && Shrinks(v[i].chain, Tcp.DrainBy(ts)(v[i].chain, n), n)
    {
      TcpLaws.DrainKeeps(v[i].key, v[i].chain, ts, n, (k, it) => true, TcpLaws.ItemBuffers);
      Tcp.DrainBound(v[i].chain, ts, n);
    }
    var r := Flush(v, room, Tcp.DrainBy(ts));
    FlushHeld(v, room, Tcp.DrainBy(ts), TcpLaws.ItemBuffers);
    FlushKeepsWf(v, room, Tcp.DrainBy(ts));
    KeepsWf(v, r.view);
    EmittedBuffers(r.out, Tcp.FinishBy(tunnel), TcpLaws.ItemBuffers);
  }

  lemma UdpPutsOut(v: Udp.UdpView, ts: nat, room: nat)
    requires Wf(v)
    ensures var v' := Flush(v, room, Udp.DrainBy(ts)).view;
      Wf(v') && PutOut(FlushUdp(v, ts, room), room, UdpBuffers(v), Total(v), UdpBuffers(v'), Total(v'))
  {
    forall i, n: nat | 0 <= i < |v| && v[i].Flow?
      ensures Conserves(v[i].key, v[i].chain, Udp.DrainBy(ts)(v[i].chain, n), UdpLaws.ItemBuffers)
        && Shrinks(v[i].chain, Udp.DrainBy(ts)(v[i].chain, n), n)
    {
      var any := (k: Udp.UdpKey, it: Udp.UdpItem) => true;
      forall m ensures UdpLaws.FuseKeeps(v[i].key, m, any, UdpLaws.ItemBuffers) {
        if m != [] { UdpLaws.FuseBuffers(v[i].key, m); }
      }
      UdpLaws.DrainKeeps(v[i].key, v[i].chain, ts, n, any, UdpLaws.ItemBuffers);
      Udp.DrainBound(v[i].chain, ts, n);
    }
    var r := Flush(v, room, Udp.DrainBy(ts));
    FlushHeld(v, room, Udp.DrainBy(ts), UdpLaws.ItemBuffers);
    FlushKeepsWf(v, room, Udp.DrainBy(ts));
    KeepsWf(v, r.view);
    EmittedBuffers(r.out, Udp.Finish, UdpLaws.ItemBuffers);
  }

  lemma FlushOneOk(vs: Views, r: Route, ts: nat, room: nat)
    requires WfAll(vs)
    ensures var d := FlushOne(vs, r, ts, room);
      WfAll(d.views) && PutOut(d.out, room, Buffers(vs), Count(vs), Buffers(d.views), Count(d.views))
  {
    PutsOutOne(vs, r, ts, room);
    var d := FlushOne(vs, r, ts, room);
    var x := SumBuffers(d.out);
    assert BuffersOf(vs, r) == BuffersOf(d.views, r) + x && Buffers(d.views) + x == x + Buffers(d.views);
    Gains(d.views, vs, r, x, TotalOf(vs, r) - TotalOf(d.views, r));
  }

  lemma PutsOutOne(vs: Views, r: Route, ts: nat, room: nat)
    requires WfAll(vs)
    ensures var d := FlushOne(vs, r, ts, room);
      && WfAll(d.views) && SameBut(vs, d.views, r)
      && PutOut(d.out, room, BuffersOf(vs, r), TotalOf(vs, r), BuffersOf(d.views, r), TotalOf(d.views, r))
  {
    match r
    case VxlanTcp => TcpPutsOut(vs.vxlanTcp, true, ts, room);
    case VxlanUdp => UdpPutsOut(vs.vxlanUdp, ts, room);
    case GtpTcp => TcpPutsOut(vs.gtpTcp, true, ts, room);
    case GtpUdp => UdpPutsOut(vs.gtpUdp, ts, room);
    case Tcp4 => TcpPutsOut(vs.tcp4, false, ts, room);
    case Unprocessed =>
  }

  /** All that is put out and all that is left fits in `max` slots. */
  ghost predicate Fits(d: Drained, max: nat) {
    WfAll(d.views) && |d.out| + Count(d.views) <= max
  }

  ghost function AllBuffers(d: Drained): multiset<nat> { SumBuffers(d.out) + Buffers(d.views) }

  lemma MoreOk(d: Drained, r: Route, on: Types, ts: nat, max: nat)
    requires WfAll(d.views) && |d.out| <= max
    ensures var d' := FlushMore(d, r, on, ts, max);
      && WfAll(d'.views) && |d.out| <= |d'.out| <= max && |d'.out| + Count(d'.views) <= |d.out| + Count(d.views)
      && AllBuffers(d') == AllBuffers(d)
  {
    if Enabled(on, r) {
      FlushOneOk(d.views, r, ts, Less(max, |d.out|));
      var e := FlushOne(d.views, r, ts, Less(max, |d.out|));
      SumBuffersConcat(d.out, e.out);
      assert (SumBuffers(d.out) + SumBuffers(e.out)) + Buffers(e.views)
        == SumBuffers(d.out) + (SumBuffers(e.out) + Buffers(e.views));
    }
  }
}
