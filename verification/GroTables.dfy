/**
  The tables of a context or of one burst, and the packet loops over them.
 */
module GroTables {
  import opened Packets
  import opened FlowTable
  import opened ItemTable
  import opened Gro
  import Tcp
  import Udp

  // What does not change in a table stays valid.

  twostate lemma KeptTcp(t: Table<Tcp.TcpKey, Tcp.TcpItem>)
    requires unchanged(t, t.items, t.flows)
    ensures t.Valid() == old(t.Valid()) && t.view == old(t.view)
  {}

  twostate lemma KeptUdp(t: Table<Udp.UdpKey, Udp.UdpItem>)
    requires unchanged(t, t.items, t.flows)
    ensures t.Valid() == old(t.Valid()) && t.view == old(t.view)
  {}

  /** The result of draining a table into an array that was `s`: the tables, the number of
      packets put out, and the array. */
  ghost predicate PutsOut(d: Drained, s: seq<Mbuf>, at: nat, room: nat, views: Views, k: nat, s': seq<Mbuf>) {
    views == d.views && k == |d.out| <= room && Wrote(s, at, d.out, s')
  }

  /** The tables of a context, or of one burst. */
  class Tables {
    const vxlanTcp: Table<Tcp.TcpKey, Tcp.TcpItem>
    const vxlanUdp: Table<Udp.UdpKey, Udp.UdpItem>
    const gtpTcp: Table<Tcp.TcpKey, Tcp.TcpItem>
    const gtpUdp: Table<Udp.UdpKey, Udp.UdpItem>
    const tcp4: Table<Tcp.TcpKey, Tcp.TcpItem>

    ghost function Repr(): set<object> {
      {vxlanTcp, vxlanTcp.items, vxlanTcp.flows, vxlanUdp, vxlanUdp.items, vxlanUdp.flows,
       gtpTcp, gtpTcp.items, gtpTcp.flows, gtpUdp, gtpUdp.items, gtpUdp.flows, tcp4, tcp4.items, tcp4.flows}
    }

    /** No two tables share anything. */
    ghost predicate Apart() {
      && vxlanTcp != gtpTcp && gtpTcp != tcp4 && tcp4 != vxlanTcp && vxlanUdp != gtpUdp
      && vxlanTcp.items != gtpTcp.items && gtpTcp.items != tcp4.items && tcp4.items != vxlanTcp.items
      && vxlanUdp.items != gtpUdp.items
      && vxlanTcp.flows != gtpTcp.flows && gtpTcp.flows != tcp4.flows && tcp4.flows != vxlanTcp.flows
      && vxlanUdp.flows != gtpUdp.flows
    }

    ghost predicate Valid()
      reads Repr()
    {
      Apart() && vxlanTcp.Valid() && vxlanUdp.Valid() && gtpTcp.Valid() && gtpUdp.Valid() && tcp4.Valid()
    }

    ghost function State(): Views
      reads Repr()
    {
      Views(vxlanTcp.view, vxlanUdp.view, gtpTcp.view, gtpUdp.view, tcp4.view)
    }

    constructor (a: Table<Tcp.TcpKey, Tcp.TcpItem>, b: Table<Udp.UdpKey, Udp.UdpItem>,
                 c: Table<Tcp.TcpKey, Tcp.TcpItem>, d: Table<Udp.UdpKey, Udp.UdpItem>,
                 e: Table<Tcp.TcpKey, Tcp.TcpItem>)
      ensures vxlanTcp == a && vxlanUdp == b && gtpTcp == c && gtpUdp == d && tcp4 == e
    {
      vxlanTcp, vxlanUdp, gtpTcp, gtpUdp, tcp4 := a, b, c, d, e;
    }

    // One table at a time.

    method TakeVxlanTcp(p: Mbuf, t: nat) returns (ret: int)
      requires Valid()
      modifies vxlanTcp, vxlanTcp.items, vxlanTcp.flows
      ensures var s := Tcp.TunnelAccept(old(vxlanTcp.view), p, t);
        Valid() && State() == old(State()).(vxlanTcp := s.view) && ret == s.ret
    {
      ret := Tcp.TunnelReassemble(p, vxlanTcp, t);
    }

    method TakeVxlanUdp(p: Mbuf, t: nat) returns (ret: int)
      requires Valid()
      modifies vxlanUdp, vxlanUdp.items, vxlanUdp.flows
      ensures var s := Udp.Accept(old(vxlanUdp.view), p, t);
        Valid() && State() == old(State()).(vxlanUdp := s.view) && ret == s.ret
    {
      ret := Udp.Reassemble(p, vxlanUdp, t);
    }

    method TakeGtpTcp(p: Mbuf, t: nat) returns (ret: int)
      requires Valid()
      modifies gtpTcp, gtpTcp.items, gtpTcp.flows
      ensures var s := Tcp.TunnelAccept(old(gtpTcp.view), p, t);
        Valid() && State() == old(State()).(gtpTcp := s.view) && ret == s.ret
    {
      ret := Tcp.TunnelReassemble(p, gtpTcp, t);
    }

    method TakeGtpUdp(p: Mbuf, t: nat) returns (ret: int)
      requires Valid()
      modifies gtpUdp, gtpUdp.items, gtpUdp.flows
      ensures var s := Udp.Accept(old(gtpUdp.view), p, t);
        Valid() && State() == old(State()).(gtpUdp := s.view) && ret == s.ret
    {
      ret := Udp.Reassemble(p, gtpUdp, t);
    }

    method TakeTcp4(p: Mbuf, t: nat) returns (ret: int, q: Mbuf)
      requires Valid()
      modifies tcp4, tcp4.items, tcp4.flows
      ensures var s := Tcp.PlainAccept(old(tcp4.view), q, t);
        Valid() && State() == old(State()).(tcp4 := s.view) && ret == s.ret && q == Tcp.AfterTrim(p)
    {
      ret, q := Tcp.PlainReassemble(p, tcp4, t);
    }

    method FlushVxlanTcp(ts: nat, out: array<Mbuf>, at: nat, room: nat) returns (k: nat)
      requires Valid() && at + room <= out.Length && (room > 0 || Total(vxlanTcp.view) == 0)
      modifies vxlanTcp, vxlanTcp.items, vxlanTcp.flows, out
      ensures Valid()
      ensures PutsOut(FlushOne(old(State()), VxlanTcp, ts, room), old(out[..]), at, room, State(), k, out[..])
    {
      vxlanTcp.NoneLive();
      k := Tcp.TimeoutFlush(vxlanTcp, ts, true, out, at, room);
      KeptUdp(vxlanUdp);
      KeptTcp(gtpTcp);
      KeptUdp(gtpUdp);
      KeptTcp(tcp4);
    }

    method FlushVxlanUdp(ts: nat, out: array<Mbuf>, at: nat, room: nat) returns (k: nat)
      requires Valid() && at + room <= out.Length && (room > 0 || Total(vxlanUdp.view) == 0)
      modifies vxlanUdp, vxlanUdp.items, vxlanUdp.flows, out
      ensures Valid()
      ensures PutsOut(FlushOne(old(State()), VxlanUdp, ts, room), old(out[..]), at, room, State(), k, out[..])
    {
      vxlanUdp.NoneLive();
      k := Udp.TimeoutFlush(vxlanUdp, ts, out, at, room);
      KeptTcp(vxlanTcp);
      KeptTcp(gtpTcp);
      KeptUdp(gtpUdp);
      KeptTcp(tcp4);
    }

    method FlushGtpTcp(ts: nat, out: array<Mbuf>, at: nat, room: nat) returns (k: nat)
      requires Valid() && at + room <= out.Length && (room > 0 || Total(gtpTcp.view) == 0)
      modifies gtpTcp, gtpTcp.items, gtpTcp.flows, out
      ensures Valid()
      ensures PutsOut(FlushOne(old(State()), GtpTcp, ts, room), old(out[..]), at, room, State(), k, out[..])
    {
      gtpTcp.NoneLive();
      k := Tcp.TimeoutFlush(gtpTcp, ts, true, out, at, room);
      KeptTcp(vxlanTcp);
      KeptUdp(vxlanUdp);
      KeptUdp(gtpUdp);
      KeptTcp(tcp4);
    }

    method FlushGtpUdp(ts: nat, out: array<Mbuf>, at: nat, room: nat) returns (k: nat)
      requires Valid() && at + room <= out.Length && (room > 0 || Total(gtpUdp.view) == 0)
      modifies gtpUdp, gtpUdp.items, gtpUdp.flows, out
      ensures Valid()
      ensures PutsOut(FlushOne(old(State()), GtpUdp, ts, room), old(out[..]), at, room, State(), k, out[..])
    {
      gtpUdp.NoneLive();
      k := Udp.TimeoutFlush(gtpUdp, ts, out, at, room);
      KeptTcp(vxlanTcp);
      KeptUdp(vxlanUdp);
      KeptTcp(gtpTcp);
      KeptTcp(tcp4);
    }

    method FlushTcp4(ts: nat, out: array<Mbuf>, at: nat, room: nat) returns (k: nat)
      requires Valid() && at + room <= out.Length && (room > 0 || Total(tcp4.view) == 0)
      modifies tcp4, tcp4.items, tcp4.flows, out
      ensures Valid()
      ensures PutsOut(FlushOne(old(State()), Tcp4, ts, room), old(out[..]), at, room, State(), k, out[..])
    {
      tcp4.NoneLive();
      k := Tcp.TimeoutFlush(tcp4, ts, false, out, at, room);
      KeptTcp(vxlanTcp);
      KeptUdp(vxlanUdp);
      KeptTcp(gtpTcp);
      KeptUdp(gtpUdp);
    }

    /** The body of the packet loop for one packet. */
    method Reassemble(r: Route, p: Mbuf, t: nat) returns (ret: int, q: Mbuf)
      requires Valid()
      modifies Repr()
      ensures Valid() && Processed(State(), ret, q) == Process(old(State()), r, p, t)
    {
      q := p;
      match r
      case VxlanTcp => ret := TakeVxlanTcp(p, t);
      case VxlanUdp => ret := TakeVxlanUdp(p, t);
      case GtpTcp => ret := TakeGtpTcp(p, t);
      case GtpUdp => ret := TakeGtpUdp(p, t);
      case Tcp4 => ret, q := TakeTcp4(p, t);
      case Unprocessed => ret := -1;
    }

    /** Drain the table of one type into `out` from index `at` on. */
    method TimeoutFlush(r: Route, ts: nat, out: array<Mbuf>, at: nat, room: nat) returns (k: nat)
      requires Valid() && at + room <= out.Length && (room > 0 || TotalOf(State(), r) == 0)
      modifies Repr(), out
      ensures Valid()
      ensures PutsOut(FlushOne(old(State()), r, ts, room), old(out[..]), at, room, State(), k, out[..])
    {
      k := 0;
      if r == VxlanTcp || r == VxlanUdp {
        k := FlushVxlan(r, ts, out, at, room);
      } else if r == GtpTcp || r == GtpUdp {
        k := FlushGtp(r, ts, out, at, room);
      } else if r == Tcp4 {
        k := FlushTcp4(ts, out, at, room);
      }
    }

    method FlushVxlan(r: Route, ts: nat, out: array<Mbuf>, at: nat, room: nat) returns (k: nat)
      requires Valid() && at + room <= out.Length && (room > 0 || TotalOf(State(), r) == 0)
      requires r == VxlanTcp || r == VxlanUdp
      modifies Repr(), out
      ensures Valid()
      ensures PutsOut(FlushOne(old(State()), r, ts, room), old(out[..]), at, room, State(), k, out[..])
    {
      if r == VxlanTcp {
        k := FlushVxlanTcp(ts, out, at, room);
      } else {
        k := FlushVxlanUdp(ts, out, at, room);
      }
    }

    method FlushGtp(r: Route, ts: nat, out: array<Mbuf>, at: nat, room: nat) returns (k: nat)
      requires Valid() && at + room <= out.Length && (room > 0 || TotalOf(State(), r) == 0)
      requires r == GtpTcp || r == GtpUdp
      modifies Repr(), out
      ensures Valid()
      ensures PutsOut(FlushOne(old(State()), r, ts, room), old(out[..]), at, room, State(), k, out[..])
    {
      if r == GtpTcp {
        k := FlushGtpTcp(ts, out, at, room);
      } else {
        k := FlushGtpUdp(ts, out, at, room);
      }
    }
  }

  /** A table for TCP and one for UDP. */
  method NewPair(entries: nat) returns (a: Table<Tcp.TcpKey, Tcp.TcpItem>, b: Table<Udp.UdpKey, Udp.UdpItem>)
    requires entries <= TBL_MAX_ITEM_NUM
    ensures a.Valid() && a.view == seq(entries, _ => NoFlow) && b.Valid() && b.view == seq(entries, _ => NoFlow)
    ensures fresh(a) && fresh(a.items) && fresh(a.flows) && fresh(b) && fresh(b.items) && fresh(b.flows)
  {
    a := new Table(entries);
    b := new Table(entries);
  }

  method NewTables(entries: nat) returns (t: Tables)
    requires entries <= TBL_MAX_ITEM_NUM
    ensures t.Valid() && t.State() == NoFlows(entries)
    ensures fresh(t.vxlanTcp) && fresh(t.vxlanTcp.items) && fresh(t.vxlanTcp.flows)
    ensures fresh(t.vxlanUdp) && fresh(t.vxlanUdp.items) && fresh(t.vxlanUdp.flows)
    ensures fresh(t.gtpTcp) && fresh(t.gtpTcp.items) && fresh(t.gtpTcp.flows)
    ensures fresh(t.gtpUdp) && fresh(t.gtpUdp.items) && fresh(t.gtpUdp.flows)
    ensures fresh(t.tcp4) && fresh(t.tcp4.items) && fresh(t.tcp4.flows)
  {
    var a, b := NewPair(entries);
    var c, d := NewPair(entries);
    var e := new Table(entries);
    t := new Tables(a, b, c, d, e);
  }

  // ----- The packet loops

  /** What the call made of packet `i`; if it was refused it goes down to slot `u`. */
  method Put(ghost tbls: Tables, pkts: array<Mbuf>, i: nat, q: Mbuf, ret: int, u: nat,
             ghost r: Progress, ghost r': Progress, ghost ps: seq<Mbuf>, ghost tail: seq<Mbuf>)
    requires u == |r.back| <= i == |r.seen| < |ps| && pkts[..] == Compacted(r, ps, tail, i)
    requires r'.seen == r.seen + [q] && r'.back == if ret < 0 then r.back + [q] else r.back
    requires tbls.Valid()
    modifies pkts
    ensures tbls.Valid() && tbls.State() == old(tbls.State())
    ensures pkts[..] == Compacted(r', ps, tail, i + 1)
  {
    CompactedNext(r, r', ps, tail, i, q);
    pkts[i] := q;
    if ret < 0 {
      pkts[u] := pkts[i];
    }
  }

  /** The first `i` packets of `ps` have been through the tables. */
  ghost predicate Through(tbls: Tables, v0: Views, ps: seq<Mbuf>, classify: Classifier, on: Types, t: nat, r: Progress,
                          i: nat)
    reads tbls.Repr()
  {
    tbls.Valid() && i <= |ps| && tbls.State() == r.views && r == ProcessAll(v0, ps[..i], classify, on, t)
  }

  /** A packet array is no part of a table. */
  lemma NoTable(tbls: Tables, a: array<Mbuf>)
    ensures a !in tbls.Repr()
  {}

  method Take(tbls: Tables, p: Mbuf, ghost v0: Views, ghost ps: seq<Mbuf>, classify: Classifier, on: Types, t: nat,
              ghost r: Progress, ghost i: nat)
    returns (ret: int, q: Mbuf, ghost r': Progress)
    requires Through(tbls, v0, ps, classify, on, t, r, i) && i < |ps| && p == ps[i]
    modifies tbls.Repr()
    ensures Through(tbls, v0, ps, classify, on, t, r', i + 1)
    ensures r'.seen == r.seen + [q] && r'.back == (if ret < 0 then r.back + [q] else r.back)
    ensures r'.merged == if ret > 0 then r.merged + 1 else r.merged
  {
    assert ps[..i + 1][..i] == ps[..i];
    r' := ProcessAll(v0, ps[..i + 1], classify, on, t);
    ret, q := tbls.Reassemble(RouteOf(classify(p.packetType), on), p, t);
  }

  /** Progress of the loop that works in place. */
  ghost predicate InPlace(tbls: Tables, pkts: array<Mbuf>, v0: Views, ps: seq<Mbuf>, tail: seq<Mbuf>,
                          classify: Classifier, on: Types, t: nat, r: Progress, i: nat)
    reads tbls.Repr(), pkts
  {
    Through(tbls, v0, ps, classify, on, t, r, i) && pkts[..] == Compacted(r, ps, tail, i)
  }

  method InPlaceRound(tbls: Tables, pkts: array<Mbuf>, ghost v0: Views, ghost ps: seq<Mbuf>, ghost tail: seq<Mbuf>,
                      classify: Classifier, on: Types, t: nat, ghost r: Progress, i: nat, u: nat, n: nat)
    returns (u': nat, n': nat, ghost r': Progress)
    requires InPlace(tbls, pkts, v0, ps, tail, classify, on, t, r, i) && i < |ps|
    requires u == |r.back| && n + r.merged == |ps|
    modifies tbls.Repr(), pkts
    ensures InPlace(tbls, pkts, v0, ps, tail, classify, on, t, r', i + 1)
    ensures u' == |r'.back| && n' + r'.merged == |ps|
  {
    assert pkts[..][i] == ps[i];
    var ret, q;
    NoTable(tbls, pkts);
    ret, q, r' := Take(tbls, pkts[i], v0, ps, classify, on, t, r, i);
    Put(tbls, pkts, i, q, ret, u, r, r', ps, tail);
    u', n' := if ret < 0 then u + 1 else u, if ret > 0 then n - 1 else n;
  }

  /** The packet loop of `rte_gro_reassemble_burst` and `rte_gro_reassemble`: packets
      handed back move to the front of the array that is being read. */
  method ProcessInPlace(tbls: Tables, pkts: array<Mbuf>, nbPkts: nat, classify: Classifier, on: Types, t: nat)
    returns (unprocessNum: nat, nbAfterGro: nat)
    requires tbls.Valid() && nbPkts <= pkts.Length
    modifies tbls.Repr(), pkts
    ensures tbls.Valid()
    ensures var r := ProcessAll(old(tbls.State()), old(pkts[..nbPkts]), classify, on, t);
      && tbls.State() == r.views && unprocessNum == |r.back| && nbAfterGro == nbPkts - r.merged
      && pkts[..] == HandedBack(r, old(pkts[nbPkts..]))
  {
    ghost var v0, ps, tail := tbls.State(), pkts[..nbPkts], pkts[nbPkts..];
    assert pkts[..] == Compacted(Progress(v0, [], [], 0), ps, tail, 0);
    ghost var r;
    unprocessNum, nbAfterGro, r := ProcessEach(tbls, pkts, v0, ps, tail, nbPkts, classify, on, t);
    AllCompacted(r, ps, tail);
    assert ps[..nbPkts] == ps;
  }

  /** The loop alone. */
  method ProcessEach(tbls: Tables, pkts: array<Mbuf>, ghost v0: Views, ghost ps: seq<Mbuf>, ghost tail: seq<Mbuf>,
                     nbPkts: nat, classify: Classifier, on: Types, t: nat)
    returns (unprocessNum: nat, nbAfterGro: nat, ghost r: Progress)
    requires InPlace(tbls, pkts, v0, ps, tail, classify, on, t, Progress(v0, [], [], 0), 0) && nbPkts == |ps|
    modifies tbls.Repr(), pkts
    ensures InPlace(tbls, pkts, v0, ps, tail, classify, on, t, r, nbPkts)
    ensures unprocessNum == |r.back| && nbAfterGro + r.merged == nbPkts
  {
    r := Progress(v0, [], [], 0);
    unprocessNum, nbAfterGro := 0, nbPkts;
    for i := 0 to nbPkts
      invariant InPlace(tbls, pkts, v0, ps, tail, classify, on, t, r, i)
      invariant unprocessNum == |r.back| && nbAfterGro + r.merged == nbPkts
    {
      unprocessNum, nbAfterGro, r :=
        InPlaceRound(tbls, pkts, v0, ps, tail, classify, on, t, r, i, unprocessNum, nbAfterGro);
    }
  }

  // ----- The packet loop with a second array

  /** Progress of the loop that collects the packets handed back in `un`. */
  ghost predicate Copying(tbls: Tables, pkts: array<Mbuf>, un: array<Mbuf>, v0: Views, ps: seq<Mbuf>, tail: seq<Mbuf>,
                          classify: Classifier, on: Types, t: nat, r: Progress, i: nat)
    reads tbls.Repr(), pkts, un
  {
    && Through(tbls, v0, ps, classify, on, t, r, i) && i == |r.seen| && pkts[..] == SeenSoFar(r, ps, tail, i)
    && |r.back| <= un.Length == |ps| && un[..|r.back|] == r.back
  }

  method PutApart(ghost tbls: Tables, pkts: array<Mbuf>, un: array<Mbuf>, i: nat, q: Mbuf, ret: int, u: nat,
                  ghost r: Progress, ghost r': Progress, ghost ps: seq<Mbuf>, ghost tail: seq<Mbuf>)
    requires u == |r.back| <= i == |r.seen| < |ps| == un.Length && pkts != un
    requires pkts[..] == SeenSoFar(r, ps, tail, i) && un[..u] == r.back
    requires r'.seen == r.seen + [q] && r'.back == if ret < 0 then r.back + [q] else r.back
    requires tbls.Valid()
    modifies pkts, un
    ensures tbls.Valid() && tbls.State() == old(tbls.State())
    ensures pkts[..] == SeenSoFar(r', ps, tail, i + 1) && un[..|r'.back|] == r'.back
  {
    SeenNext(r, r', ps, tail, i, q);
    pkts[i] := q;
    if ret < 0 {
      un[u] := pkts[i];
    }
  }

  method CopyingRound(tbls: Tables, pkts: array<Mbuf>, un: array<Mbuf>, ghost v0: Views, ghost ps: seq<Mbuf>,
                      ghost tail: seq<Mbuf>, classify: Classifier, on: Types, t: nat, ghost r: Progress, i: nat, u: nat,
                      n: nat)
    returns (u': nat, n': nat, ghost r': Progress)
    requires Copying(tbls, pkts, un, v0, ps, tail, classify, on, t, r, i) && i < |ps| && pkts != un
    requires u == |r.back| && n + r.merged == |ps|
    modifies tbls.Repr(), pkts, un
    ensures Copying(tbls, pkts, un, v0, ps, tail, classify, on, t, r', i + 1)
    ensures u' == |r'.back| && n' + r'.merged == |ps|
  {
    assert pkts[..][i] == ps[i];
    var ret, q;
    NoTable(tbls, pkts);
    NoTable(tbls, un);
    ret, q, r' := Take(tbls, pkts[i], v0, ps, classify, on, t, r, i);
    PutApart(tbls, pkts, un, i, q, ret, u, r, r', ps, tail);
    u', n' := if ret < 0 then u + 1 else u, if ret > 0 then n - 1 else n;
  }

  /** The packet loop in the form that collects the packets handed back in an array of
      its own. */
  method ProcessCopying(tbls: Tables, pkts: array<Mbuf>, nbPkts: nat, classify: Classifier, on: Types, t: nat)
    returns (unprocessNum: nat, nbAfterGro: nat, unprocessPkts: array<Mbuf>)
    requires tbls.Valid() && nbPkts <= pkts.Length
    modifies tbls.Repr(), pkts
    ensures tbls.Valid() && fresh(unprocessPkts)
    ensures var r := ProcessAll(old(tbls.State()), old(pkts[..nbPkts]), classify, on, t);
      && tbls.State() == r.views && unprocessNum == |r.back| && nbAfterGro == nbPkts - r.merged
      && pkts[..] == r.seen + old(pkts[nbPkts..])
      && unprocessNum <= unprocessPkts.Length && unprocessPkts[..unprocessNum] == r.back
  {
    unprocessPkts := new Mbuf[nbPkts];
    unprocessNum, nbAfterGro := Collect(tbls, pkts, unprocessPkts, nbPkts, classify, on, t);
  }

  method Collect(tbls: Tables, pkts: array<Mbuf>, unprocessPkts: array<Mbuf>, nbPkts: nat, classify: Classifier,
                 on: Types, t: nat)
    returns (unprocessNum: nat, nbAfterGro: nat)
    requires tbls.Valid() && nbPkts == unprocessPkts.Length <= pkts.Length && pkts != unprocessPkts
    modifies tbls.Repr(), pkts, unprocessPkts
    ensures tbls.Valid()
    ensures var r := ProcessAll(old(tbls.State()), old(pkts[..nbPkts]), classify, on, t);
      && tbls.State() == r.views && unprocessNum == |r.back| && nbAfterGro == nbPkts - r.merged
      && pkts[..] == r.seen + old(pkts[nbPkts..]) && unprocessPkts[..unprocessNum] == r.back
  {
    ghost var v0, ps, tail := tbls.State(), pkts[..nbPkts], pkts[nbPkts..];
    NothingSeen(v0, ps, tail);
    assert pkts[..] == ps + tail;
    ghost var r;
    unprocessNum, nbAfterGro, r := CollectAll(tbls, pkts, unprocessPkts, v0, ps, tail, nbPkts, classify, on, t);
    AllSeen(r, ps, tail);
    assert ps[..nbPkts] == ps;
  }

  /** The loop alone. */
  method CollectAll(tbls: Tables, pkts: array<Mbuf>, un: array<Mbuf>, ghost v0: Views, ghost ps: seq<Mbuf>,
                    ghost tail: seq<Mbuf>, nbPkts: nat, classify: Classifier, on: Types, t: nat)
    returns (unprocessNum: nat, nbAfterGro: nat, ghost r: Progress)
    requires Copying(tbls, pkts, un, v0, ps, tail, classify, on, t, Progress(v0, [], [], 0), 0)
    requires nbPkts == |ps| && pkts != un
    modifies tbls.Repr(), pkts, un
    ensures Copying(tbls, pkts, un, v0, ps, tail, classify, on, t, r, nbPkts)
    ensures unprocessNum == |r.back| && nbAfterGro + r.merged == nbPkts
  {
    r := Progress(v0, [], [], 0);
    unprocessNum, nbAfterGro := 0, nbPkts;
    for i := 0 to nbPkts
      invariant Copying(tbls, pkts, un, v0, ps, tail, classify, on, t, r, i)
      invariant unprocessNum == |r.back| && nbAfterGro + r.merged == nbPkts
    {
      unprocessNum, nbAfterGro, r :=
        CopyingRound(tbls, pkts, un, v0, ps, tail, classify, on, t, r, i, unprocessNum, nbAfterGro);
    }
  }

  /** Copy the packets handed back, if any, to the front of the packet array. */
  method CopyBack(ghost tbls: Tables, pkts: array<Mbuf>, un: array<Mbuf>, n: nat)
    requires tbls.Valid() && n <= un.Length && n <= pkts.Length && pkts != un
    modifies pkts
    ensures tbls.Valid() && tbls.State() == old(tbls.State())
    ensures pkts[..] == Written(old(pkts[..]), 0, un[..n])
  {
    if n > 0 {
      Copy(pkts, un, n);
    }
    assert Written(old(pkts[..]), 0, []) == old(pkts[..]);
  }

  method Copy(pkts: array<Mbuf>, un: array<Mbuf>, n: nat)
    requires n <= un.Length && n <= pkts.Length && pkts != un
    modifies pkts
    ensures pkts[..] == Written(old(pkts[..]), 0, un[..n])
  {
    for i := 0 to n
      invariant forall j :: 0 <= j < i ==> pkts[j] == un[j]
      invariant forall j :: i <= j < pkts.Length ==> pkts[j] == old(pkts[j])
    {
      pkts[i] := un[i];
    }
  }
}
