/**
  Whole runs of a UDP reassembly table: any interleaving of arrivals and flushes.
 */
module UdpSessions {
  import opened Basics
  import opened Packets
  import opened FlowTable
  import opened FlushLoop
  import opened Udp
  import opened UdpLaws
  import opened UdpOrder

  datatype Event = Packet(p: Mbuf, t: nat) | Timeout(ts: nat, room: nat)

  /** The table, the packets it took so far and the packets it put out so far. */
  datatype Session = Session(view: UdpView, taken: seq<Mbuf>, out: seq<Mbuf>)

  /** A table of `n` entries that has seen nothing. */
  function NewTable(n: nat): Session { Session(seq(n, _ => NoFlow), [], []) }

  function Next(s: Session, e: Event): Session {
    match e
    case Packet(p, t) =>
      var r := Accept(s.view, p, t);
      if r.ret == -1 then s else Session(r.view, s.taken + [p], s.out)
    case Timeout(ts, room) =>
      var r := Flush(s.view, room, DrainBy(ts));
      Session(r.view, s.taken, s.out + Emitted(r.out, Finish))
  }

  function RunAll(s: Session, es: seq<Event>): Session
    decreases |es|
  {
    if es == [] then s else RunAll(Next(s, es[0]), es[1..])
  }

  /** Arriving packets of the flows that `lens` is given for have those header lengths. */
  ghost predicate EventOk(e: Event, lens: FlowLens) {
    e.Packet? ==> Rejected(e.p) || PacketIn(e.p, lens(KeyOf(e.p.hdr)))
  }

  /** Everything taken is in the table or was put out: each byte of those flows once, at
      the place in its datagram it arrived with, and each buffer of any flow once. */
  ghost predicate Balanced(s: Session, lens: FlowLens) {
    && Wf(s.view) && ViewOk(s.view, lens)
    && SumUnits(s.taken, lens) == Held(s.view, UnitsBy(lens)) + SumUnits(s.out, lens)
    && SumBuffers(s.taken) == Held(s.view, ItemBuffers) + SumBuffers(s.out)
  }

  /** The structure of the table, whatever the packets are. */
  lemma NextWf(s: Session, e: Event)
    requires Wf(s.view)
    ensures var v' := Next(s, e).view; Wf(v') && |v'| == |s.view| && Total(v') <= Total(s.view) + 1
  {
    match e
    case Packet(p, t) => AcceptWf(s.view, p, t);
    case Timeout(ts, room) => FlushWf(s.view, room, ts);
  }

  lemma {:induction false} RunWf(s: Session, es: seq<Event>)
    requires Wf(s.view)
    ensures Wf(RunAll(s, es).view) && |RunAll(s, es).view| == |s.view|
    decreases |es|
  {
    if es != [] {
      NextWf(s, es[0]);
      RunWf(Next(s, es[0]), es[1..]);
    }
  }

  lemma AcceptWf(v: UdpView, p: Mbuf, t: nat)
    requires Wf(v)
    ensures var r := Accept(v, p, t);
      && Wf(r.view) && |r.view| == |v| && Total(r.view) <= Total(v) + 1
      && (r.ret == -1 ==> r.view == v && (Rejected(p) || Total(v) == |v|))
  {
    if !Rejected(p) {
      StoreKeepsWf(v, KeyOf(p.hdr), Fresh(p, t), Decide(Lookup(v, KeyOf(p.hdr)), p, 0));
    }
  }

  lemma FlushWf(v: UdpView, room: nat, ts: nat)
    requires Wf(v)
    ensures var v' := Flush(v, room, DrainBy(ts)).view; Wf(v') && |v'| == |v| && Total(v') <= Total(v)
  {
    forall i, n: nat | 0 <= i < |v| && v[i].Flow? ensures Shrinks(v[i].chain, DrainBy(ts)(v[i].chain, n), n) {
      DrainBound(v[i].chain, ts, n);
    }
    FlushKeepsWf(v, room, DrainBy(ts));
    KeepsWf(v, Flush(v, room, DrainBy(ts)).view);
  }

  lemma SumsConcat(a: seq<Mbuf>, b: seq<Mbuf>, lens: FlowLens)
    ensures SumUnits(a + b, lens) == SumUnits(a, lens) + SumUnits(b, lens)
    ensures SumBuffers(a + b) == SumBuffers(a) + SumBuffers(b)
  {
    SumConcat(a, b, (m: Mbuf) => UnitsIn(m, lens));
    SumBuffersConcat(a, b);
  }

  lemma NextBalanced(s: Session, e: Event, lens: FlowLens)
    requires Balanced(s, lens) && EventOk(e, lens)
    ensures Balanced(Next(s, e), lens)
  {
    match e
    case Packet(p, t) => PacketBalanced(s, p, t, lens);
    case Timeout(ts, room) => TimeoutBalanced(s, ts, room, lens);
  }

  lemma PacketBalanced(s: Session, p: Mbuf, t: nat, lens: FlowLens)
    requires Balanced(s, lens) && EventOk(Packet(p, t), lens)
    ensures Balanced(Next(s, Packet(p, t)), lens)
  {
    AcceptOk(s.view, p, t, lens);
    AcceptConserves(s.view, p, t, lens);
    SumMore(s.taken, p, (m: Mbuf) => UnitsIn(m, lens));
    SumBuffersMore(s.taken, p);
    Take(SumUnits(s.taken, lens), Held(s.view, UnitsBy(lens)), SumUnits(s.out, lens), UnitsIn(p, lens));
    Take(SumBuffers(s.taken), Held(s.view, ItemBuffers), SumBuffers(s.out), multiset(p.segs));
  }

  lemma TimeoutBalanced(s: Session, ts: nat, room: nat, lens: FlowLens)
    requires Balanced(s, lens)
    ensures Balanced(Next(s, Timeout(ts, room)), lens)
  {
    FlushConserves(s.view, room, ts, lens);
    var r := Flush(s.view, room, DrainBy(ts));
    var o := Emitted(r.out, Finish);
    SumsConcat(s.out, o, lens);
    Move(SumUnits(s.taken, lens), Held(s.view, UnitsBy(lens)), SumUnits(s.out, lens), SumUnits(o, lens),
      Held(r.view, UnitsBy(lens)));
    Move(SumBuffers(s.taken), Held(s.view, ItemBuffers), SumBuffers(s.out), SumBuffers(o), Held(r.view, ItemBuffers));
  }

  /** Conservation over every run, whatever overlaps, repeats or is refused. */
  lemma {:induction false} RunBalanced(s: Session, es: seq<Event>, lens: FlowLens)
    requires Balanced(s, lens) && forall i :: 0 <= i < |es| ==> EventOk(es[i], lens)
    ensures Balanced(RunAll(s, es), lens)
    decreases |es|
  {
    if es != [] {
      NextBalanced(s, es[0], lens);
      RunBalanced(Next(s, es[0]), es[1..], lens);
    }
  }

  // ----- Offset order over runs

  ghost predicate AllSorted(v: UdpView, lens: FlowLens) {
    forall i :: 0 <= i < |v| && v[i].Flow? && lens(v[i].key).Some? ==> Sorted(v[i].chain)
  }

  /** The event does not have a merge refused and the packet put on the wrong side. */
  ghost predicate Placed(s: Session, e: Event, lens: FlowLens) {
    e.Packet? && Accept(s.view, e.p, e.t).ret == 0 && lens(KeyOf(e.p.hdr)).Some? ==>
      var c := Lookup(s.view, KeyOf(e.p.hdr));
      Refused(c, e.p) ==> RefusedInPlace(c, e.p)
  }

  ghost predicate AllPlaced(s: Session, es: seq<Event>, lens: FlowLens)
    decreases |es|
  {
    es != [] ==> Placed(s, es[0], lens) && AllPlaced(Next(s, es[0]), es[1..], lens)
  }

  lemma NextSorted(s: Session, e: Event, lens: FlowLens)
    requires Balanced(s, lens) && EventOk(e, lens) && AllSorted(s.view, lens) && Placed(s, e, lens)
    ensures AllSorted(Next(s, e).view, lens)
  {
    match e
    case Packet(p, t) =>
      if Accept(s.view, p, t).ret != -1 {
        var c := Lookup(s.view, KeyOf(p.hdr));
        AcceptChain(s.view, p, t);
        if lens(KeyOf(p.hdr)).Some? {
          StepSorted(c, p, t, lens(KeyOf(p.hdr)).value);
          if Refused(c, p) { RefusedInserts(s.view, p, t); }
        }
      }
    case Timeout(ts, room) =>
      FlushSorted(s.view, room, ts, lens);
  }

  lemma RefusedInserts(v: UdpView, p: Mbuf, t: nat)
    requires Accept(v, p, t).ret != -1 && Refused(Lookup(v, KeyOf(p.hdr)), p)
    ensures Accept(v, p, t).ret == 0
  {
    DecideStops(Lookup(v, KeyOf(p.hdr)), p, 0);
  }

  lemma {:induction false} FlushSorted(v: UdpView, room: nat, ts: nat, lens: FlowLens)
    requires ViewOk(v, lens) && AllSorted(v, lens)
    ensures AllSorted(Flush(v, room, DrainBy(ts)).view, lens)
  {
    if v != [] && room > 0 {
      var r := Flush(v, room, DrainBy(ts));
      var left := if v[0].Flow? then Less(room, |DrainChain(v[0].chain, ts, room).out|) else room;
      assert forall i :: 0 <= i < |v[1..]| ==> v[1..][i] == v[i + 1];
      FlushSorted(v[1..], left, ts, lens);
      if v[0].Flow? && lens(v[0].key).Some? {
        DrainSorted(v[0].key, v[0].chain, ts, room, lens(v[0].key).value);
      }
      assert forall i :: 1 <= i < |r.view| ==> r.view[i] == Flush(v[1..], left, DrainBy(ts)).view[i - 1];
    }
  }

  /** In every run without such a refusal each chain stays ordered by offset. */
  lemma {:induction false} RunSorted(s: Session, es: seq<Event>, lens: FlowLens)
    requires Balanced(s, lens) && AllSorted(s.view, lens) && AllPlaced(s, es, lens)
    requires forall i :: 0 <= i < |es| ==> EventOk(es[i], lens)
    ensures AllSorted(RunAll(s, es).view, lens)
    decreases |es|
  {
    if es != [] {
      NextSorted(s, es[0], lens);
      NextBalanced(s, es[0], lens);
      RunSorted(Next(s, es[0]), es[1..], lens);
    }
  }

  lemma {:induction false} RunConcat(s: Session, a: seq<Event>, b: seq<Event>)
    ensures RunAll(s, a + b) == RunAll(RunAll(s, a), b)
    decreases |a|
  {
    if a == [] {
      assert a + b == b;
    } else {
      assert (a + b)[1..] == a[1..] + b;
      RunConcat(Next(s, a[0]), a[1..], b);
    }
  }

  // ----- From a new table

  lemma NewBalanced(n: nat, lens: FlowLens)
    ensures Balanced(NewTable(n), lens) && AllSorted(NewTable(n).view, lens)
  {
    var v := NewTable(n).view;
    EmptyHolds(v, UnitsBy(lens));
    EmptyHolds(v, ItemBuffers);
  }

  /** Every run of a new table keeps the balance, and order if no refusal breaks it. */
  lemma RunFromNew(n: nat, es: seq<Event>, lens: FlowLens)
    requires forall i :: 0 <= i < |es| ==> EventOk(es[i], lens)
    ensures Balanced(RunAll(NewTable(n), es), lens)
    ensures AllPlaced(NewTable(n), es, lens) ==> AllSorted(RunAll(NewTable(n), es).view, lens)
  {
    NewBalanced(n, lens);
    RunBalanced(NewTable(n), es, lens);
    if AllPlaced(NewTable(n), es, lens) {
      RunSorted(NewTable(n), es, lens);
    }
  }
}
