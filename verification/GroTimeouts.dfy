/**
  What a flush of a context takes, told by the times of arrival: the items that have
  waited for as long as the timeout, of the types that are asked for and enabled.
 */
module GroTimeouts {
  import opened Packets
  import opened FlowTable
  import opened FlushLoop
  import opened Gro
  import opened GroLaws
  import Tcp
  import TcpTimes
  import TcpDelivery
  import Udp
  import UdpFlows

  /** An item that arrived at `start` has waited for `timeout` at time `now`. */
  predicate Waited(start: nat, now: nat, timeout: nat) { start + timeout <= now }

  /** As long as the subtraction does not wrap, the time stamp separates these items from
      the others; otherwise it is later than all times of a clock that has not wrapped. */
  lemma DueIff(start: nat, now: nat, timeout: nat)
    requires now < U64 && timeout < U64
    ensures start <= FlushTimestamp(now, timeout) <==>
      if timeout <= now then Waited(start, now, timeout) else start + timeout <= now + U64
  {}

  // ----- What comes out has waited

  /** The table holds this item under this key. */
  ghost predicate HeldIn<K, I>(v: seq<Flow<K, I>>, k: K, it: I) {
    exists i :: 0 <= i < |v| && v[i].Flow? && v[i].key == k && it in v[i].chain
  }

  /** The packet is an item of a TCP table that has waited. */
  ghost predicate TcpWaited(v: Tcp.TcpView, tunnel: bool, m: Mbuf, now: nat, timeout: nat) {
    exists k, it :: HeldIn(v, k, it) && m == Tcp.Finish(it, tunnel) && Waited(it.startTime, now, timeout)
  }

  /** The packet is an item of a UDP table that has waited, and what was merged to it. */
  ghost predicate UdpWaited(v: Udp.UdpView, m: Mbuf, now: nat, timeout: nat) {
    exists k, it :: HeldIn(v, k, it) && Within(it.firstseg.segs, m.segs) && Waited(it.startTime, now, timeout)
  }

  predicate Within(a: seq<nat>, b: seq<nat>) { forall s | s in a :: s in b }

  lemma {:induction false} TcpDrainDue(c: seq<Tcp.TcpItem>, ts: nat, room: nat, it: Tcp.TcpItem)
    requires it in Tcp.DrainChain(c, ts, room).out
    ensures it in c && it.startTime <= ts
  {
    if it != c[0] {
      TcpDrainDue(c[1..], ts, room - 1, it);
    }
  }

  lemma TcpOutWaited(v: Tcp.TcpView, tunnel: bool, m: Mbuf, now: nat, timeout: nat, room: nat)
    requires timeout <= now < U64 && m in FlushTcp(v, tunnel, FlushTimestamp(now, timeout), room)
    ensures TcpWaited(v, tunnel, m, now, timeout)
  {
    var ts := FlushTimestamp(now, timeout);
    var out := Flush(v, room, Tcp.DrainBy(ts)).out;
    var j :| 0 <= j < |out| && m == Tcp.Finish(out[j].item, tunnel);
    var i, r := FlushFrom(v, room, Tcp.DrainBy(ts), out[j]);
    TcpDrainDue(v[i].chain, ts, r, out[j].item);
    DueIff(out[j].item.startTime, now, timeout);
    assert HeldIn(v, out[j].key, out[j].item);
  }

  /** An item that was merged from the head of a chain has its buffers. */
  lemma {:induction false} FuseWithin(c: seq<Udp.UdpItem>)
    requires c != []
    ensures Within(c[0].firstseg.segs, Udp.Fuse(c)[0].firstseg.segs)
    decreases |c|
  {
    var d := Udp.FuseOnce(c);
    if |c| > 1 && d != c {
      FuseWithin(d);
    }
  }

  /** What a drain puts out was merged to an item of the chain that was due. */
  lemma {:induction false} UdpDrainDue(c: seq<Udp.UdpItem>, ts: nat, room: nat, it: Udp.UdpItem)
    returns (head: Udp.UdpItem)
    requires it in Udp.DrainChain(c, ts, room).out
    ensures head in c && head.startTime <= ts && Within(head.firstseg.segs, it.firstseg.segs)
    decreases |c|
  {
    var m := Udp.Fuse(c);
    var rest := m[1..];
    DrainOutIs(c, ts, room);
    if it == m[0] {
      FuseWithin(c);
      head := c[0];
    } else {
      head := UdpDrainDue(rest, ts, room - 1, it);
      SuffixIn(c, |c| - |m| + 1, head);
    }
  }

  lemma DrainOutIs(c: seq<Udp.UdpItem>, ts: nat, room: nat)
    requires Udp.DrainChain(c, ts, room).out != []
    ensures c != [] && room > 0 && c[0].startTime <= ts
    ensures Udp.DrainChain(c, ts, room).out
      == [Udp.Fuse(c)[0]] + Udp.DrainChain(Udp.Fuse(c)[1..], ts, room - 1).out
  {}

  lemma SuffixIn<T>(s: seq<T>, n: nat, x: T)
    requires n <= |s| && x in s[n..]
    ensures x in s
  {}

  lemma FinishSegs(it: Udp.UdpItem)
    ensures Udp.Finish(it).segs == it.firstseg.segs
  {}

  lemma UdpOutWaited(v: Udp.UdpView, m: Mbuf, now: nat, timeout: nat, room: nat)
    requires timeout <= now < U64 && m in FlushUdp(v, FlushTimestamp(now, timeout), room)
    ensures UdpWaited(v, m, now, timeout)
  {
    var ts := FlushTimestamp(now, timeout);
    var out := Flush(v, room, Udp.DrainBy(ts)).out;
    var j :| 0 <= j < |out| && m == Udp.Finish(out[j].item);
    var i, r := FlushFrom(v, room, Udp.DrainBy(ts), out[j]);
    var head := UdpDrainDue(v[i].chain, ts, r, out[j].item);
    DueIff(head.startTime, now, timeout);
    FinishSegs(out[j].item);
    assert HeldIn(v, out[j].key, head) && Within(head.firstseg.segs, m.segs) && Waited(head.startTime, now, timeout);
  }

  /** What a flush of the context puts out, table by table. */
  lemma OutFrom(vs: Views, on: Types, ts: nat, max: nat, m: Mbuf)
    requires m in FlushContext(vs, on, ts, max).out
    ensures
      || (on.vxlanTcp && m in FlushTcp(vs.vxlanTcp, true, ts, RoomFor(vs, VxlanTcp, on, ts, max)))
      || (on.vxlanUdp && m in FlushUdp(vs.vxlanUdp, ts, RoomFor(vs, VxlanUdp, on, ts, max)))
      || (on.gtpTcp && m in FlushTcp(vs.gtpTcp, true, ts, RoomFor(vs, GtpTcp, on, ts, max)))
      || (on.gtpUdp && m in FlushUdp(vs.gtpUdp, ts, RoomFor(vs, GtpUdp, on, ts, max)))
      || (on.tcp4 && m in FlushTcp(vs.tcp4, false, ts, RoomFor(vs, Tcp4, on, ts, max)))
  {}

  /** The packet has waited in a table of a type that is asked for and enabled. */
  ghost predicate Overdue(vs: Views, types: Types, enabled: Types, m: Mbuf, now: nat, timeout: nat) {
    || (types.vxlanTcp && enabled.vxlanTcp && TcpWaited(vs.vxlanTcp, true, m, now, timeout))
    || (types.vxlanUdp && enabled.vxlanUdp && UdpWaited(vs.vxlanUdp, m, now, timeout))
    || (types.gtpTcp && enabled.gtpTcp && TcpWaited(vs.gtpTcp, true, m, now, timeout))
    || (types.gtpUdp && enabled.gtpUdp && UdpWaited(vs.gtpUdp, m, now, timeout))
    || (types.tcp4 && enabled.tcp4 && TcpWaited(vs.tcp4, false, m, now, timeout))
  }

  lemma OnlyOverdue(vs: Views, types: Types, enabled: Types, now: nat, timeout: nat, max: nat, m: Mbuf)
    requires timeout <= now < U64
    requires m in FlushContext(vs, Both(types, enabled), FlushTimestamp(now, timeout), max).out
    ensures Overdue(vs, types, enabled, m, now, timeout)
  {
    var on, ts := Both(types, enabled), FlushTimestamp(now, timeout);
    OutFrom(vs, on, ts, max, m);
    if on.vxlanTcp && m in FlushTcp(vs.vxlanTcp, true, ts, RoomFor(vs, VxlanTcp, on, ts, max)) {
      TcpOutWaited(vs.vxlanTcp, true, m, now, timeout, RoomFor(vs, VxlanTcp, on, ts, max));
    } else if on.vxlanUdp && m in FlushUdp(vs.vxlanUdp, ts, RoomFor(vs, VxlanUdp, on, ts, max)) {
      UdpOutWaited(vs.vxlanUdp, m, now, timeout, RoomFor(vs, VxlanUdp, on, ts, max));
    } else if on.gtpTcp && m in FlushTcp(vs.gtpTcp, true, ts, RoomFor(vs, GtpTcp, on, ts, max)) {
      TcpOutWaited(vs.gtpTcp, true, m, now, timeout, RoomFor(vs, GtpTcp, on, ts, max));
    } else if on.gtpUdp && m in FlushUdp(vs.gtpUdp, ts, RoomFor(vs, GtpUdp, on, ts, max)) {
      UdpOutWaited(vs.gtpUdp, m, now, timeout, RoomFor(vs, GtpUdp, on, ts, max));
    } else {
      TcpOutWaited(vs.tcp4, false, m, now, timeout, RoomFor(vs, Tcp4, on, ts, max));
    }
  }

  // ----- What stays has not

  /** After a flush with room for a TCP table in order of time, no item has waited. */
  lemma TcpNoneLeft(v: Tcp.TcpView, room: nat, now: nat, timeout: nat, k: Tcp.TcpKey)
    requires timeout <= now < U64 && Wf(v) && Total(v) <= room && TcpTimes.TimeSorted(Lookup(v, k))
    ensures forall it :: it in Lookup(Flush(v, room, Tcp.DrainBy(FlushTimestamp(now, timeout))).view, k) ==>
      !Waited(it.startTime, now, timeout)
  {
    var ts := FlushTimestamp(now, timeout);
    var c, left := Lookup(v, k), RoomAt(v, room, Tcp.DrainBy(ts), k);
    var v' := Flush(v, room, Tcp.DrainBy(ts)).view;
    TcpDelivery.DrainFacts(ts);
    FlushAt(v, room, Tcp.DrainBy(ts), k);
    TcpTimes.DrainTakesDue(c, ts, left);
    forall it: Tcp.TcpItem | it in Lookup(v', k) ensures !Waited(it.startTime, now, timeout) {
      DueIff(it.startTime, now, timeout);
    }
  }

  lemma {:induction false} UdpRestWaits(c: seq<Udp.UdpItem>, ts: nat, room: nat)
    requires |c| <= room
    ensures var rest := Udp.DrainChain(c, ts, room).rest; rest == [] || rest[0].startTime > ts
    decreases |c|
  {
    if c != [] && c[0].startTime <= ts {
      UdpRestWaits(Udp.Fuse(c)[1..], ts, room - 1);
    }
  }

  /** After a flush with room for a UDP table, no first item of a flow has waited. */
  lemma UdpNoneLeft(v: Udp.UdpView, room: nat, now: nat, timeout: nat, k: Udp.UdpKey)
    requires timeout <= now < U64 && Wf(v) && Total(v) <= room
    ensures var c := Lookup(Flush(v, room, Udp.DrainBy(FlushTimestamp(now, timeout))).view, k);
      c == [] || !Waited(c[0].startTime, now, timeout)
  {
    var ts := FlushTimestamp(now, timeout);
    var c, left := Lookup(v, k), RoomAt(v, room, Udp.DrainBy(ts), k);
    var c' := Lookup(Flush(v, room, Udp.DrainBy(ts)).view, k);
    UdpFlows.DrainFacts(ts);
    FlushAt(v, room, Udp.DrainBy(ts), k);
    UdpRestWaits(c, ts, left);
    if c' != [] {
      DueIff(c'[0].startTime, now, timeout);
    }
  }

  /** Where a flush of the context leaves each table. */
  lemma TablesAfter(vs: Views, on: Types, ts: nat, max: nat)
    ensures var f := FlushContext(vs, on, ts, max).views;
      && f.vxlanTcp == TcpAfter(vs.vxlanTcp, on.vxlanTcp, ts, RoomFor(vs, VxlanTcp, on, ts, max))
      && f.vxlanUdp == UdpAfter(vs.vxlanUdp, on.vxlanUdp, ts, RoomFor(vs, VxlanUdp, on, ts, max))
      && f.gtpTcp == TcpAfter(vs.gtpTcp, on.gtpTcp, ts, RoomFor(vs, GtpTcp, on, ts, max))
      && f.gtpUdp == UdpAfter(vs.gtpUdp, on.gtpUdp, ts, RoomFor(vs, GtpUdp, on, ts, max))
      && f.tcp4 == TcpAfter(vs.tcp4, on.tcp4, ts, RoomFor(vs, Tcp4, on, ts, max))
  {}

  function TcpAfter(v: Tcp.TcpView, on: bool, ts: nat, room: nat): Tcp.TcpView {
    if on then Flush(v, room, Tcp.DrainBy(ts)).view else v
  }

  function UdpAfter(v: Udp.UdpView, on: bool, ts: nat, room: nat): Udp.UdpView {
    if on then Flush(v, room, Udp.DrainBy(ts)).view else v
  }

  /** With a slot for every packet of the context, each step has room for its table. */
  lemma RoomForAll(vs: Views, on: Types, ts: nat, max: nat, r: Route)
    requires WfAll(vs) && Count(vs) <= max
    ensures TotalOf(vs, r) <= RoomFor(vs, r, on, ts, max)
  {
    BeforeFits(vs, on, ts, max, r);
    BeforeKeeps(vs, on, ts, max, r);
    PartOfCount(Before(vs, r, on, ts, max).views, r);
  }

  lemma PartOfCount(vs: Views, r: Route)
    ensures TotalOf(vs, r) <= Count(vs)
  {}

  /** The table has not been drained yet when the flush comes to it. */
  lemma BeforeKeeps(vs: Views, on: Types, ts: nat, max: nat, r: Route)
    ensures TotalOf(Before(vs, r, on, ts, max).views, r) == TotalOf(vs, r)
  {}

  lemma BeforeFits(vs: Views, on: Types, ts: nat, max: nat, r: Route)
    requires WfAll(vs) && Count(vs) <= max
    ensures Fits(Before(vs, r, on, ts, max), max)
  {
    var d0 := Drained(vs, []);
    match r
    case VxlanTcp =>
    case VxlanUdp => MoreFits(d0, VxlanTcp, on, ts, max);
    case GtpTcp => VxlanFits(vs, on, ts, max);
    case GtpUdp => GtpTcpFits(vs, on, ts, max);
    case Tcp4 =>
      GtpTcpFits(vs, on, ts, max);
      MoreFits(FlushGtpTcp(FlushVxlan(vs, on, ts, max), on, ts, max), GtpUdp, on, ts, max);
    case Unprocessed =>
  }

  lemma MoreFits(d: Drained, r: Route, on: Types, ts: nat, max: nat)
    requires Fits(d, max)
    ensures Fits(FlushMore(d, r, on, ts, max), max)
  {
    MoreOk(d, r, on, ts, max);
  }

  lemma VxlanFits(vs: Views, on: Types, ts: nat, max: nat)
    requires WfAll(vs) && Count(vs) <= max
    ensures Fits(FlushVxlan(vs, on, ts, max), max)
  {
    MoreFits(Drained(vs, []), VxlanTcp, on, ts, max);
    MoreFits(FlushMore(Drained(vs, []), VxlanTcp, on, ts, max), VxlanUdp, on, ts, max);
  }

  lemma GtpTcpFits(vs: Views, on: Types, ts: nat, max: nat)
    requires WfAll(vs) && Count(vs) <= max
    ensures Fits(FlushGtpTcp(FlushVxlan(vs, on, ts, max), on, ts, max), max)
  {
    var d := FlushVxlan(vs, on, ts, max);
    VxlanFits(vs, on, ts, max);
    FlushOneOk(d.views, GtpTcp, ts, Less(max, |d.out|));
  }

  /** No item of the flow is left that has waited, if its items were in order of time. */
  ghost predicate TcpFlushed(v: Tcp.TcpView, v': Tcp.TcpView, on: bool, now: nat, timeout: nat) {
    if on then
      forall k, it :: TcpTimes.TimeSorted(Lookup(v, k)) && it in Lookup(v', k) ==> !Waited(it.startTime, now, timeout)
    else v' == v
  }

  ghost predicate UdpFlushed(v: Udp.UdpView, v': Udp.UdpView, on: bool, now: nat, timeout: nat) {
    if on then
      forall k :: var c := Lookup(v', k); c == [] || !Waited(c[0].startTime, now, timeout)
    else v' == v
  }

  /** In the tables of the types that are asked for and enabled, no TCP item of a flow in
      order of time and no first UDP item of a flow is left that has waited; the other
      tables are as they were. */
  ghost predicate NoneWaits(vs: Views, vs': Views, types: Types, enabled: Types, now: nat, timeout: nat) {
    && TcpFlushed(vs.vxlanTcp, vs'.vxlanTcp, types.vxlanTcp && enabled.vxlanTcp, now, timeout)
    && UdpFlushed(vs.vxlanUdp, vs'.vxlanUdp, types.vxlanUdp && enabled.vxlanUdp, now, timeout)
    && TcpFlushed(vs.gtpTcp, vs'.gtpTcp, types.gtpTcp && enabled.gtpTcp, now, timeout)
    && UdpFlushed(vs.gtpUdp, vs'.gtpUdp, types.gtpUdp && enabled.gtpUdp, now, timeout)
    && TcpFlushed(vs.tcp4, vs'.tcp4, types.tcp4 && enabled.tcp4, now, timeout)
  }

  /** So it is after a flush with a slot for every packet of the context. */
  lemma NoneOverdue(vs: Views, types: Types, enabled: Types, now: nat, timeout: nat, max: nat)
    requires timeout <= now < U64 && WfAll(vs) && Count(vs) <= max
    ensures var f := FlushContext(vs, Both(types, enabled), FlushTimestamp(now, timeout), max);
      NoneWaits(vs, f.views, types, enabled, now, timeout)
  {
    var on, ts := Both(types, enabled), FlushTimestamp(now, timeout);
    TablesAfter(vs, on, ts, max);
    forall r: Route ensures TotalOf(vs, r) <= RoomFor(vs, r, on, ts, max) {
      RoomForAll(vs, on, ts, max, r);
    }
    TcpLeft(vs.vxlanTcp, on.vxlanTcp, RoomFor(vs, VxlanTcp, on, ts, max), now, timeout);
    UdpLeft(vs.vxlanUdp, on.vxlanUdp, RoomFor(vs, VxlanUdp, on, ts, max), now, timeout);
    TcpLeft(vs.gtpTcp, on.gtpTcp, RoomFor(vs, GtpTcp, on, ts, max), now, timeout);
    UdpLeft(vs.gtpUdp, on.gtpUdp, RoomFor(vs, GtpUdp, on, ts, max), now, timeout);
    TcpLeft(vs.tcp4, on.tcp4, RoomFor(vs, Tcp4, on, ts, max), now, timeout);
    assert TotalOf(vs, VxlanTcp) <= RoomFor(vs, VxlanTcp, on, ts, max);
  }

  lemma TcpLeft(v: Tcp.TcpView, on: bool, room: nat, now: nat, timeout: nat)
    requires timeout <= now < U64 && Wf(v) && Total(v) <= room
    ensures TcpFlushed(v, TcpAfter(v, on, FlushTimestamp(now, timeout), room), on, now, timeout)
  {
    var v' := TcpAfter(v, on, FlushTimestamp(now, timeout), room);
    if on {
      forall k, it: Tcp.TcpItem | TcpTimes.TimeSorted(Lookup(v, k)) && it in Lookup(v', k)
        ensures !Waited(it.startTime, now, timeout)
      {
        TcpNoneLeft(v, room, now, timeout, k);
      }
    }
  }

  lemma UdpLeft(v: Udp.UdpView, on: bool, room: nat, now: nat, timeout: nat)
    requires timeout <= now < U64 && Wf(v) && Total(v) <= room
    ensures UdpFlushed(v, UdpAfter(v, on, FlushTimestamp(now, timeout), room), on, now, timeout)
  {
    if on {
      forall k {
        UdpNoneLeft(v, room, now, timeout, k);
      }
    }
  }

  /** What `rte_gro_timeout_flush` takes and leaves. */
  lemma FlushedInTime(vs: Views, types: Types, enabled: Types, now: nat, timeout: nat, max: nat)
    requires timeout <= now < U64
    ensures var f := FlushContext(vs, Both(types, enabled), FlushTimestamp(now, timeout), max);
      && (forall m :: m in f.out ==> Overdue(vs, types, enabled, m, now, timeout))
      && (WfAll(vs) && Count(vs) <= max ==> NoneWaits(vs, f.views, types, enabled, now, timeout))
  {
    var f := FlushContext(vs, Both(types, enabled), FlushTimestamp(now, timeout), max);
    forall m | m in f.out ensures Overdue(vs, types, enabled, m, now, timeout) {
      OnlyOverdue(vs, types, enabled, now, timeout, max, m);
    }
    if WfAll(vs) && Count(vs) <= max {
      NoneOverdue(vs, types, enabled, now, timeout, max);
    }
  }
}
