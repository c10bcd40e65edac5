/**
  Whole runs of a TCP reassembly table: any interleaving of arrivals and flushes.
 */
module TcpSessions {
  import opened Basics
  import opened Packets
  import opened FlowTable
  import opened FlushLoop
  import opened Tcp
  import opened TcpLaws
  import opened TcpTimes

  datatype Event = Packet(p: Mbuf, t: nat) | Timeout(ts: nat, room: nat)

  /** The table, the packets it took, the packets it put out, and the time of the last arrival. */
  datatype Session = Session(view: TcpView, taken: seq<Mbuf>, out: seq<Mbuf>, clock: nat)

  /** A table of `n` entries that has seen nothing. */
  function NewTable(n: nat): Session { Session(seq(n, _ => NoFlow), [], [], 0) }

  function Accept(v: TcpView, p: Mbuf, t: nat, tunnel: bool): Stored<TcpKey, TcpItem> {
    if tunnel then TunnelAccept(v, p, t) else PlainAccept(v, p, t)
  }

  predicate Rejected(p: Mbuf, tunnel: bool) {
    if tunnel then TunnelRejected(p) else PlainRejected(p)
  }

  function Next(s: Session, e: Event, tunnel: bool): Session {
    match e
    case Packet(p, t) =>
      var r := Accept(s.view, p, t, tunnel);
      Session(r.view, if r.ret == -1 then s.taken else s.taken + [p], s.out, t)
    case Timeout(ts, room) =>
      var r := Flush(s.view, room, DrainBy(ts));
      s.(view := r.view, out := s.out + Emitted(r.out, FinishBy(tunnel)))
  }

  function RunAll(s: Session, es: seq<Event>, tunnel: bool): Session
    decreases |es|
  {
    if es == [] then s else RunAll(Next(s, es[0], tunnel), es[1..], tunnel)
  }

  ghost predicate EventOk(e: Event, lens: FlowLens, tunnel: bool) {
    e.Packet? ==> Rejected(e.p, tunnel) || ArrivalOk(e.p, lens, tunnel)
  }

  /** The view the scan for `p` finds. */
  function Scanned(v: TcpView, p: Mbuf, tunnel: bool): TcpView {
    if tunnel then v else HeadDue(v, p)
  }

  /** No packet of those flows that is scanned has its payload changed; always so for
      tunnelled packets. */
  ghost predicate Intact(s: Session, e: Event, lens: FlowLens, tunnel: bool) {
    e.Packet? && !Rejected(e.p, tunnel) && lens(KeyOf(e.p.hdr, tunnel)).Some? ==>
      Untouched(Lookup(Scanned(s.view, e.p, tunnel), KeyOf(e.p.hdr, tunnel)), e.p, tunnel)
  }

  ghost predicate AllIntact(s: Session, es: seq<Event>, lens: FlowLens, tunnel: bool)
    decreases |es|
  {
    es != [] ==> Intact(s, es[0], lens, tunnel) && AllIntact(Next(s, es[0], tunnel), es[1..], lens, tunnel)
  }

  // ----- Conservation

  /** Every buffer taken is owned by exactly one stored item or packet put out. */
  ghost predicate Owned(s: Session, lens: FlowLens, tunnel: bool) {
    && Wf(s.view) && ViewOk(s.view, lens, tunnel)
    && SumBuffers(s.taken) == Held(s.view, ItemBuffers) + SumBuffers(s.out)
  }

  /** Every payload byte of those flows that was taken is in the table or was put out, at
      its sequence number. */
  ghost predicate Balanced(s: Session, lens: FlowLens, tunnel: bool) {
    SumUnits(s.taken, lens, tunnel) == Held(s.view, UnitsBy(lens, tunnel)) + SumUnits(s.out, lens, tunnel)
  }

  lemma SumUnitsConcat(a: seq<Mbuf>, b: seq<Mbuf>, lens: FlowLens, tunnel: bool)
    ensures SumUnits(a + b, lens, tunnel) == SumUnits(a, lens, tunnel) + SumUnits(b, lens, tunnel)
  {
    SumConcat(a, b, (m: Mbuf) => UnitsIn(m, lens, tunnel));
  }

  /** Making a head due moves no byte and no buffer. */
  lemma HeadDueKeeps<U>(v: TcpView, p: Mbuf, f: (TcpKey, TcpItem) -> multiset<U>)
    requires Wf(v)
    requires forall k, it: TcpItem :: f(k, it.(startTime := 0)) == f(k, it)
    ensures Held(HeadDue(v, p), f) == Held(v, f)
  {
    var i, v' := Find(v, KeyOf(p.hdr, false)), HeadDue(v, p);
    if v' != v {
      SameHead(v[i].key, v[i].chain, v[i].chain[0].(startTime := 0), f);
      HeldSlot(v, i, f);
      HeldUpdate(v, i, v'[i], f);
    }
  }

  lemma SameHead<U>(k: TcpKey, c: seq<TcpItem>, x: TcpItem, f: (TcpKey, TcpItem) -> multiset<U>)
    requires c != [] && f(k, x) == f(k, c[0])
    ensures InChain(k, c[0 := x], f) == InChain(k, c, f)
  {
    assert c[0 := x][1..] == c[1..];
  }

  lemma ScannedWf(v: TcpView, p: Mbuf, tunnel: bool)
    requires Wf(v)
    ensures var v' := Scanned(v, p, tunnel); Wf(v') && |v'| == |v| && Total(v') == Total(v)
  {
    var i, v' := Find(v, KeyOf(p.hdr, tunnel)), Scanned(v, p, tunnel);
    if v' != v {
      SlotWf(v, i, v'[i]);
    }
  }

  lemma ScannedIn(v: TcpView, p: Mbuf, lens: FlowLens, tunnel: bool)
    requires Wf(v) && ViewOk(v, lens, tunnel)
    ensures ViewOk(Scanned(v, p, tunnel), lens, tunnel)
  {
    var i, v' := Find(v, KeyOf(p.hdr, false)), Scanned(v, p, tunnel);
    if v' != v {
      var k, it := v[i].key, v[i].chain[0];
      assert ItemIn(k, it, lens(k), false) && ItemIn(k, it.(startTime := 0), lens(k), false);
    }
  }

  lemma ScannedOk(v: TcpView, p: Mbuf, lens: FlowLens, tunnel: bool)
    requires Wf(v) && ViewOk(v, lens, tunnel)
    ensures var v' := Scanned(v, p, tunnel);
      && Wf(v') && ViewOk(v', lens, tunnel) && |v'| == |v| && Total(v') == Total(v)
      && Held(v', ItemBuffers) == Held(v, ItemBuffers)
      && Held(v', UnitsBy(lens, tunnel)) == Held(v, UnitsBy(lens, tunnel))
  {
    ScannedWf(v, p, tunnel);
    ScannedIn(v, p, lens, tunnel);
    if !tunnel {
      HeadDueKeeps(v, p, ItemBuffers);
      HeadDueKeeps(v, p, UnitsBy(lens, false));
    }
  }

  /** The packet gets as far as the scan of a flow, or starts one. */
  predicate Scans(v: TcpView, p: Mbuf, tunnel: bool) {
    && !Rejected(p, tunnel)
    && (tunnel ||
        if Find(v, KeyOf(p.hdr, false)) < |v| then p.hdr.tcpFlags & VALID_FLAGS != 0 else p.hdr.tcpFlags == ACK_FLAG)
  }

  /** What a call does, as a scan of the table or nothing. */
  lemma AcceptScans(v: TcpView, p: Mbuf, t: nat, tunnel: bool)
    requires Wf(v)
    ensures Accept(v, p, t, tunnel) ==
      if Scans(v, p, tunnel) then StoreScanned(Scanned(v, p, tunnel), p, t, tunnel) else Stored(v, -1)
  {
    var key := KeyOf(p.hdr, tunnel);
    if !tunnel && Find(v, key) < |v| {
      FindUpdated(v, Find(v, key), HeadDue(v, p), key);
    }
  }

  lemma AcceptCases(v: TcpView, p: Mbuf, t: nat, tunnel: bool)
    requires Wf(v)
    ensures var s := Accept(v, p, t, tunnel);
      || s == Stored(v, -1)
      || (!Rejected(p, tunnel) && s == StoreScanned(Scanned(v, p, tunnel), p, t, tunnel))
  {
    AcceptScans(v, p, t, tunnel);
  }

  lemma NextOwned(s: Session, e: Event, lens: FlowLens, tunnel: bool)
    requires Owned(s, lens, tunnel) && EventOk(e, lens, tunnel)
    ensures Owned(Next(s, e, tunnel), lens, tunnel)
  {
    match e
    case Packet(p, t) =>
      AcceptCases(s.view, p, t, tunnel);
      if Accept(s.view, p, t, tunnel) != Stored(s.view, -1) {
        PacketOwned(s, p, t, lens, tunnel);
      }
    case Timeout(ts, room) =>
      TimeoutOwned(s, ts, room, lens, tunnel);
  }

  lemma PacketOwned(s: Session, p: Mbuf, t: nat, lens: FlowLens, tunnel: bool)
    requires Owned(s, lens, tunnel) && ArrivalOk(p, lens, tunnel)
    ensures var r := StoreScanned(Scanned(s.view, p, tunnel), p, t, tunnel);
      Owned(Session(r.view, if r.ret == -1 then s.taken else s.taken + [p], s.out, t), lens, tunnel)
  {
    var v := Scanned(s.view, p, tunnel);
    ScannedOk(s.view, p, lens, tunnel);
    StoreOk(v, p, t, lens, tunnel);
    StoreConserves(v, p, t, lens, tunnel);
    SumBuffersMore(s.taken, p);
    Take(SumBuffers(s.taken), Held(v, ItemBuffers), SumBuffers(s.out), multiset(p.segs));
  }

  lemma TimeoutOwned(s: Session, ts: nat, room: nat, lens: FlowLens, tunnel: bool)
    requires Owned(s, lens, tunnel)
    ensures Owned(Next(s, Timeout(ts, room), tunnel), lens, tunnel)
  {
    FlushConserves(s.view, room, ts, lens, tunnel);
    var r := Flush(s.view, room, DrainBy(ts));
    var o := Emitted(r.out, FinishBy(tunnel));
    SumBuffersConcat(s.out, o);
    Move(SumBuffers(s.taken), Held(s.view, ItemBuffers), SumBuffers(s.out), SumBuffers(o), Held(r.view, ItemBuffers));
  }

  lemma PacketBalanced(s: Session, p: Mbuf, t: nat, lens: FlowLens, tunnel: bool)
    requires Owned(s, lens, tunnel) && EventOk(Packet(p, t), lens, tunnel) && Balanced(s, lens, tunnel)
    requires Intact(s, Packet(p, t), lens, tunnel)
    ensures Balanced(Next(s, Packet(p, t), tunnel), lens, tunnel)
  {
    var r := Accept(s.view, p, t, tunnel);
    PacketHeld(s.view, p, t, lens, tunnel);
    BalancedMore(s, p, r, t, lens, tunnel);
  }

  lemma BalancedMore(s: Session, p: Mbuf, r: Stored<TcpKey, TcpItem>, t: nat, lens: FlowLens, tunnel: bool)
    requires Balanced(s, lens, tunnel)
    requires Held(r.view, UnitsBy(lens, tunnel)) ==
      Held(s.view, UnitsBy(lens, tunnel)) + (if r.ret == -1 then multiset{} else UnitsIn(p, lens, tunnel))
    ensures Balanced(Session(r.view, if r.ret == -1 then s.taken else s.taken + [p], s.out, t), lens, tunnel)
  {
    SumMore(s.taken, p, (m: Mbuf) => UnitsIn(m, lens, tunnel));
    Take(SumUnits(s.taken, lens, tunnel), Held(s.view, UnitsBy(lens, tunnel)), SumUnits(s.out, lens, tunnel),
      UnitsIn(p, lens, tunnel));
  }

  lemma PacketHeld(v: TcpView, p: Mbuf, t: nat, lens: FlowLens, tunnel: bool)
    requires Wf(v) && ViewOk(v, lens, tunnel) && (Rejected(p, tunnel) || ArrivalOk(p, lens, tunnel))
    requires !Rejected(p, tunnel) && lens(KeyOf(p.hdr, tunnel)).Some? ==>
      Untouched(Lookup(Scanned(v, p, tunnel), KeyOf(p.hdr, tunnel)), p, tunnel)
    ensures var r := Accept(v, p, t, tunnel);
      Held(r.view, UnitsBy(lens, tunnel))
        == Held(v, UnitsBy(lens, tunnel)) + (if r.ret == -1 then multiset{} else UnitsIn(p, lens, tunnel))
  {
    AcceptCases(v, p, t, tunnel);
    if Accept(v, p, t, tunnel) != Stored(v, -1) {
      ScannedOk(v, p, lens, tunnel);
      StoreConserves(Scanned(v, p, tunnel), p, t, lens, tunnel);
    }
  }

  lemma TimeoutBalanced(s: Session, ts: nat, room: nat, lens: FlowLens, tunnel: bool)
    requires Owned(s, lens, tunnel) && Balanced(s, lens, tunnel)
    ensures Balanced(Next(s, Timeout(ts, room), tunnel), lens, tunnel)
  {
    FlushConserves(s.view, room, ts, lens, tunnel);
    var r := Flush(s.view, room, DrainBy(ts));
    var o := Emitted(r.out, FinishBy(tunnel));
    SumUnitsConcat(s.out, o, lens, tunnel);
    Move(SumUnits(s.taken, lens, tunnel), Held(s.view, UnitsBy(lens, tunnel)), SumUnits(s.out, lens, tunnel),
      SumUnits(o, lens, tunnel), Held(r.view, UnitsBy(lens, tunnel)));
  }

  /** Conservation over every run: buffers always, payload bytes as long as no flags are
      written into a payload. */
  lemma {:induction false} RunBalanced(s: Session, es: seq<Event>, lens: FlowLens, tunnel: bool)
    requires Owned(s, lens, tunnel) && forall i :: 0 <= i < |es| ==> EventOk(es[i], lens, tunnel)
    ensures Owned(RunAll(s, es, tunnel), lens, tunnel)
    ensures Balanced(s, lens, tunnel) && AllIntact(s, es, lens, tunnel) ==>
      Balanced(RunAll(s, es, tunnel), lens, tunnel)
    decreases |es|
  {
    if es != [] {
      NextOwned(s, es[0], lens, tunnel);
      if Balanced(s, lens, tunnel) && AllIntact(s, es, lens, tunnel) {
        match es[0]
        case Packet(p, t) => PacketBalanced(s, p, t, lens, tunnel);
        case Timeout(ts, room) => TimeoutBalanced(s, ts, room, lens, tunnel);
      }
      RunBalanced(Next(s, es[0], tunnel), es[1..], lens, tunnel);
    }
  }

  /** Tunnelled packets carry ACK alone, so their payload is never changed. */
  lemma {:induction false} TunnelIntact(s: Session, es: seq<Event>, lens: FlowLens)
    ensures AllIntact(s, es, lens, true)
    decreases |es|
  {
    if es != [] {
      TunnelIntact(Next(s, es[0], true), es[1..], lens);
    }
  }

  /** No plain packet of those flows carries PSH or FIN. */
  ghost predicate NoPushOrFin(es: seq<Event>, lens: FlowLens) {
    forall i :: 0 <= i < |es| ==> Acknowledges(es[i], lens)
  }

  predicate Acknowledges(e: Event, lens: FlowLens) {
    e.Packet? && lens(KeyOf(e.p.hdr, false)).Some? ==> !HasPushOrFin(e.p)
  }

  /** A plain packet that is scanned and carries neither has ACK or no flag. */
  lemma NoFlagWritten(p: Mbuf, cmp: int)
    requires !PlainRejected(p) && !HasPushOrFin(p)
    ensures !Touches(p, cmp, false)
  {
    OnlyAck(p.hdr.tcpFlags);
    var at := TcpStart(p.lens, false) + 13;
    if at < |Bytes(p, false)| {
      OrNothing(Bytes(p, false)[at]);
    }
  }

  lemma OrNothing(b: byte)
    ensures b | 0 == b
  {}

  lemma OnlyAck(flags: byte)
    requires flags & !VALID_FLAGS == 0 && flags & (PSH_FLAG | FIN_FLAG) == 0
    ensures flags == ACK_FLAG || flags == 0
  {}

  /** So in a run without PSH and FIN no plain payload is ever changed. */
  lemma {:induction false} AckIntact(s: Session, es: seq<Event>, lens: FlowLens)
    requires NoPushOrFin(es, lens)
    ensures AllIntact(s, es, lens, false)
    decreases |es|
  {
    if es != [] {
      if es[0].Packet? && !PlainRejected(es[0].p) && lens(KeyOf(es[0].p.hdr, false)).Some? {
        var c := Lookup(Scanned(s.view, es[0].p, false), KeyOf(es[0].p.hdr, false));
        var at := StopAt(c, es[0].p, 0, false);
        if Merges(c, es[0].p, false) {
          assert Acknowledges(es[0], lens);
          NoFlagWritten(es[0].p, Check(c[at], es[0].p, false));
        }
      }
      assert forall i :: 0 <= i < |es[1..]| ==> es[1..][i] == es[i + 1];
      AckIntact(Next(s, es[0], false), es[1..], lens);
    }
  }

  // ----- Order of time

  ghost predicate Timely(s: Session) {
    AllTimeSorted(s.view) && forall i :: 0 <= i < |s.view| && s.view[i].Flow? ==> NotAfter(s.view[i].chain, s.clock)
  }

  /** Arrivals are in order of time, and none is refused a merge and put in front of an
      older item. */
  ghost predicate Punctual(s: Session, e: Event, tunnel: bool) {
    e.Packet? ==>
      && s.clock <= e.t
      && InTime(Lookup(Scanned(s.view, e.p, tunnel), KeyOf(e.p.hdr, tunnel)), e.p, e.t, tunnel)
  }

  predicate InTime(c: seq<TcpItem>, p: Mbuf, t: nat, tunnel: bool) {
    Refused(c, p, tunnel) ==> Place(c, p, tunnel) == |c| || c[Place(c, p, tunnel)].startTime == t
  }

  ghost predicate AllPunctual(s: Session, es: seq<Event>, tunnel: bool)
    decreases |es|
  {
    es != [] ==> Punctual(s, es[0], tunnel) && AllPunctual(Next(s, es[0], tunnel), es[1..], tunnel)
  }

  lemma NextWf(s: Session, e: Event, tunnel: bool)
    requires Wf(s.view)
    ensures var v' := Next(s, e, tunnel).view; Wf(v') && |v'| == |s.view| && Total(v') <= Total(s.view) + 1
  {
    match e
    case Packet(p, t) => AcceptWf(s.view, p, t, tunnel);
    case Timeout(ts, room) => FlushWf(s.view, room, ts);
  }

  lemma AcceptWf(v: TcpView, p: Mbuf, t: nat, tunnel: bool)
    requires Wf(v)
    ensures var r := Accept(v, p, t, tunnel);
      && Wf(r.view) && |r.view| == |v| && Total(r.view) <= Total(v) + 1
      && (r.ret == -1 ==> !Scans(v, p, tunnel) || Total(v) == |v|)
  {
    var w, key := Scanned(v, p, tunnel), KeyOf(p.hdr, tunnel);
    AcceptScans(v, p, t, tunnel);
    ScannedWf(v, p, tunnel);
    StoreKeepsWf(w, key, Fresh(p, t, tunnel), Decide(Lookup(w, key), p, 0, tunnel));
  }

  lemma {:induction false} RunWf(s: Session, es: seq<Event>, tunnel: bool)
    requires Wf(s.view)
    ensures var v := RunAll(s, es, tunnel).view; Wf(v) && |v| == |s.view|
    decreases |es|
  {
    if es != [] {
      NextWf(s, es[0], tunnel);
      RunWf(Next(s, es[0], tunnel), es[1..], tunnel);
    }
  }

  lemma FlushWf(v: TcpView, room: nat, ts: nat)
    requires Wf(v)
    ensures var v' := Flush(v, room, DrainBy(ts)).view; Wf(v') && |v'| == |v| && Total(v') <= Total(v)
  {
    forall i, n: nat | 0 <= i < |v| && v[i].Flow? ensures Shrinks(v[i].chain, DrainBy(ts)(v[i].chain, n), n) {
      DrainBound(v[i].chain, ts, n);
    }
    FlushKeepsWf(v, room, DrainBy(ts));
    KeepsWf(v, Flush(v, room, DrainBy(ts)).view);
  }

  lemma ScannedTimely(v: TcpView, p: Mbuf, t: nat, tunnel: bool)
    requires Wf(v) && AllTimeSorted(v) && forall i :: 0 <= i < |v| && v[i].Flow? ==> NotAfter(v[i].chain, t)
    ensures var v' := Scanned(v, p, tunnel);
      && Wf(v') && |v'| == |v| && AllTimeSorted(v')
      && forall i :: 0 <= i < |v'| && v'[i].Flow? ==> NotAfter(v'[i].chain, t)
  {
    var i, v' := Find(v, KeyOf(p.hdr, tunnel)), Scanned(v, p, tunnel);
    ScannedWf(v, p, tunnel);
    if v' != v {
      HeadDueTimes(v[i].chain, t);
    }
  }

  lemma NextTimely(s: Session, e: Event, tunnel: bool)
    requires Wf(s.view) && Timely(s) && Punctual(s, e, tunnel)
    ensures Timely(Next(s, e, tunnel))
  {
    match e
    case Packet(p, t) =>
      AcceptCases(s.view, p, t, tunnel);
      if Accept(s.view, p, t, tunnel) != Stored(s.view, -1) {
        ScannedTimely(s.view, p, t, tunnel);
        StoredTimely(Scanned(s.view, p, tunnel), p, t, tunnel);
      }
    case Timeout(ts, room) =>
      FlushTimely(s.view, room, ts, s.clock);
  }

  lemma StoredTimely(v: TcpView, p: Mbuf, t: nat, tunnel: bool)
    requires Wf(v) && AllTimeSorted(v) && forall i :: 0 <= i < |v| && v[i].Flow? ==> NotAfter(v[i].chain, t)
    requires InTime(Lookup(v, KeyOf(p.hdr, tunnel)), p, t, tunnel)
    ensures var v' := StoreScanned(v, p, t, tunnel).view;
      AllTimeSorted(v') && forall i :: 0 <= i < |v'| && v'[i].Flow? ==> NotAfter(v'[i].chain, t)
  {
    if StoreScanned(v, p, t, tunnel).ret != -1 {
      StoreChain(v, p, t, tunnel);
      StepTimes(Lookup(v, KeyOf(p.hdr, tunnel)), p, t, tunnel);
    }
  }

  ghost function TimelyBy(t: nat): (TcpKey, seq<TcpItem>) -> bool {
    (k: TcpKey, c: seq<TcpItem>) => TimeSorted(c) && NotAfter(c, t)
  }

  lemma FlushTimely(v: TcpView, room: nat, ts: nat, t: nat)
    requires AllTimeSorted(v) && forall i :: 0 <= i < |v| && v[i].Flow? ==> NotAfter(v[i].chain, t)
    ensures var r := Flush(v, room, DrainBy(ts)).view;
      AllTimeSorted(r) && forall i :: 0 <= i < |r| && r[i].Flow? ==> NotAfter(r[i].chain, t)
  {
    forall i, n: nat | 0 <= i < |v| && v[i].Flow? ensures TimelyBy(t)(v[i].key, DrainBy(ts)(v[i].chain, n).rest) {
      DrainBound(v[i].chain, ts, n);
      SuffixTimely(v[i].chain, DrainChain(v[i].chain, ts, n), t);
    }
    FlushEach(v, room, DrainBy(ts), TimelyBy(t));
    var r := Flush(v, room, DrainBy(ts)).view;
    assert forall i :: 0 <= i < |r| && r[i].Flow? ==> TimelyBy(t)(r[i].key, r[i].chain);
  }

  lemma SuffixTimely(c: seq<TcpItem>, d: Drain<TcpItem>, t: nat)
    requires TimeSorted(c) && NotAfter(c, t) && c == d.out + d.rest
    ensures TimeSorted(d.rest) && NotAfter(d.rest, t)
  {
    assert forall i :: 0 <= i < |d.rest| ==> d.rest[i] == c[|d.out| + i];
  }

  /** In every run of punctual arrivals, flushes included, all chains stay in order of
      time, so that a flush with room takes exactly the due items (`FlushTakesDue`). */
  lemma {:induction false} RunTimely(s: Session, es: seq<Event>, tunnel: bool)
    requires Wf(s.view) && Timely(s) && AllPunctual(s, es, tunnel)
    ensures Timely(RunAll(s, es, tunnel))
    decreases |es|
  {
    if es != [] {
      NextTimely(s, es[0], tunnel);
      NextWf(s, es[0], tunnel);
      RunTimely(Next(s, es[0], tunnel), es[1..], tunnel);
    }
  }

  // ----- From a new table

  lemma NewOwned(n: nat, lens: FlowLens, tunnel: bool)
    ensures Owned(NewTable(n), lens, tunnel)
  {
    EmptyHolds(NewTable(n).view, ItemBuffers);
  }

  lemma NewBalanced(n: nat, lens: FlowLens, tunnel: bool)
    ensures Balanced(NewTable(n), lens, tunnel)
  {
    EmptyHolds(NewTable(n).view, UnitsBy(lens, tunnel));
  }

  lemma NewTimely(n: nat)
    ensures Timely(NewTable(n))
  {
    assert forall i :: 0 <= i < n ==> NewTable(n).view[i] == NoFlow;
  }

  /** Order of time in every run of a new table. */
  lemma TimelyFromNew(n: nat, es: seq<Event>, tunnel: bool)
    requires AllPunctual(NewTable(n), es, tunnel)
    ensures Timely(RunAll(NewTable(n), es, tunnel))
  {
    EmptyHolds(NewTable(n).view, ItemBuffers);
    NewTimely(n);
    RunTimely(NewTable(n), es, tunnel);
  }

  /** Conservation in every run of a new table. */
  lemma RunFromNew(n: nat, es: seq<Event>, lens: FlowLens, tunnel: bool)
    requires forall i :: 0 <= i < |es| ==> EventOk(es[i], lens, tunnel)
    ensures var s := RunAll(NewTable(n), es, tunnel);
      && Owned(s, lens, tunnel) && (AllIntact(NewTable(n), es, lens, tunnel) ==> Balanced(s, lens, tunnel))
      && (tunnel || NoPushOrFin(es, lens) ==> Balanced(s, lens, tunnel))
  {
    NewOwned(n, lens, tunnel);
    NewBalanced(n, lens, tunnel);
    RunBalanced(NewTable(n), es, lens, tunnel);
    if tunnel {
      TunnelIntact(NewTable(n), es, lens);
    } else if NoPushOrFin(es, lens) {
      AckIntact(NewTable(n), es, lens);
    }
  }
}
