/**
  The flows of a UDP table, each on its own: whatever else the table takes and flushes,
  the fragments of one flow come out of it as `UdpDatagrams` says.
 */
module UdpFlows {
  import opened Basics
  import opened Packets
  import opened FlowTable
  import opened FlushLoop
  import opened Udp
  import opened UdpLaws
  import opened UdpDatagrams
  import opened UdpSessions
  import Runs

  /** The fragments of flow `k` that the table takes in a run. */
  function TakenOf(s: Session, es: seq<Event>, k: UdpKey): seq<Arrival>
    decreases |es|
  {
    if es == [] then []
    else TakenBy(s, es[0], k) + TakenOf(Next(s, es[0]), es[1..], k)
  }

  function TakenBy(s: Session, e: Event, k: UdpKey): seq<Arrival> {
    if e.Packet? && KeyOf(e.p.hdr) == k && Accept(s.view, e.p, e.t).ret != -1 then [Arrival(e.p, e.t)] else []
  }

  /** No flush of the run finds the head of flow `k` due. */
  ghost predicate Undisturbed(s: Session, es: seq<Event>, k: UdpKey)
    decreases |es|
  {
    es != [] ==> NotDrained(s, es[0], k) && Undisturbed(Next(s, es[0]), es[1..], k)
  }

  ghost predicate NotDrained(s: Session, e: Event, k: UdpKey) {
    e.Timeout? ==> var c := Lookup(s.view, k); c == [] || c[0].startTime > e.ts
  }

  // ----- The chain of one flow

  /** A packet of another flow leaves the chain as it is. */
  lemma OtherFlow(v: UdpView, p: Mbuf, t: nat, k: UdpKey)
    requires Wf(v) && KeyOf(p.hdr) != k
    ensures Lookup(Accept(v, p, t).view, k) == Lookup(v, k)
  {
    var s := Accept(v, p, t);
    if s.ret != -1 {
      var key := KeyOf(p.hdr);
      AcceptChain(v, p, t);
      forall i | 0 <= i < |v| && s.view[i] != v[i] ensures !Owns(v[i], k) && !Owns(s.view[i], k) {
        var f, j := Find(v, key), FirstFree(v);
        assert s.view == v[(if f < |v| then f else j) := s.view[if f < |v| then f else j]];
      }
      LookupSame(v, s.view, k);
    }
  }

  lemma DrainFacts(ts: nat)
    ensures forall c: seq<UdpItem> :: DrainBy(ts)(c, 0) == Drain([], c)
    ensures forall c: seq<UdpItem>, r: nat :: Shrinks(c, DrainBy(ts)(c, r), r)
  {
    forall c: seq<UdpItem>, r: nat ensures Shrinks(c, DrainBy(ts)(c, r), r) {
      DrainBound(c, ts, r);
    }
  }

  /** One event does to the chain of flow `k` what the fragments taken do. */
  lemma NextChain(s: Session, e: Event, k: UdpKey)
    requires Wf(s.view) && NotDrained(s, e, k)
    ensures Lookup(Next(s, e).view, k) == Arrive(Lookup(s.view, k), TakenBy(s, e, k))
  {
    match e
    case Packet(p, t) =>
      if Accept(s.view, p, t).ret != -1 {
        if KeyOf(p.hdr) == k {
          AcceptChain(s.view, p, t);
          ArriveOne(Lookup(s.view, k), Arrival(p, t));
        } else {
          OtherFlow(s.view, p, t, k);
        }
      }
    case Timeout(ts, room) =>
      DrainFacts(ts);
      FlushAt(s.view, room, DrainBy(ts), k);
      if Find(s.view, k) == |s.view| {
        assert Lookup(s.view, k) == [];
      }
  }

  /** So the chain of a flow is what its own fragments make of it, whatever other flows
      and flushes come between them. */
  lemma {:induction false} RunChain(s: Session, es: seq<Event>, k: UdpKey)
    requires Wf(s.view) && Undisturbed(s, es, k)
    ensures Lookup(RunAll(s, es).view, k) == Arrive(Lookup(s.view, k), TakenOf(s, es, k))
    decreases |es|
  {
    if es != [] {
      NextChain(s, es[0], k);
      NextWf(s, es[0]);
      RunChain(Next(s, es[0]), es[1..], k);
      ArriveConcat(Lookup(s.view, k), TakenBy(s, es[0], k), TakenOf(Next(s, es[0]), es[1..], k));
    }
  }

  // ----- What comes out

  /** The packets of flow `k`. */
  function OfFlow(ms: seq<Mbuf>, k: UdpKey): seq<Mbuf> {
    if ms == [] then [] else (if KeyOf(ms[0].hdr) == k then [ms[0]] else []) + OfFlow(ms[1..], k)
  }

  lemma {:induction false} EmittedOfFlow(out: seq<Tagged<UdpKey, UdpItem>>, k: UdpKey, lens: FlowLens)
    requires AllOut(out, OkBy(lens))
    ensures OfFlow(Emitted(out, Finish), k) == Finished(OfKey(out, k), Finish)
  {
    if out != [] {
      var e := Emitted(out, Finish);
      assert e[0] == Finish(out[0].item) && e[1..] == Emitted(out[1..], Finish);
      assert OkBy(lens)(out[0].key, out[0].item);
      FinishIn(out[0].key, out[0].item, lens);
      assert forall i :: 0 <= i < |out[1..]| ==> out[1..][i] == out[i + 1];
      EmittedOfFlow(out[1..], k, lens);
      FinishedMore(OfKey(out[1..], k), out[0].item);
    }
  }

  lemma FinishedMore(c: seq<UdpItem>, x: UdpItem)
    ensures Finished([x] + c, Finish) == [Finish(x)] + Finished(c, Finish)
  {}

  /** More room than there are items makes no difference. */
  lemma {:induction false} DrainRoom(c: seq<UdpItem>, ts: nat, r: nat, r': nat)
    requires |c| <= r && |c| <= r'
    ensures DrainChain(c, ts, r) == DrainChain(c, ts, r')
    decreases |c|
  {
    if c != [] && c[0].startTime <= ts {
      DrainRoom(Fuse(c)[1..], ts, r - 1, r' - 1);
    }
  }

  lemma {:induction false} TakenOk(s: Session, es: seq<Event>, k: UdpKey, lens: FlowLens)
    requires forall i :: 0 <= i < |es| ==> EventOk(es[i], lens)
    ensures forall i :: 0 <= i < |TakenOf(s, es, k)| ==>
      var p := TakenOf(s, es, k)[i].p; PacketIn(p, lens(k)) && KeyOf(p.hdr) == k
    decreases |es|
  {
    if es != [] {
      TakenOk(Next(s, es[0]), es[1..], k, lens);
    }
  }

  /** After the run `es`, in which no flush finds flow `k` due, a flush at time `ts` has room
      for the whole table, and the fragments of the flow are due. */
  ghost predicate Ripe(s: Session, es: seq<Event>, k: UdpKey, lens: FlowLens, ts: nat, room: nat) {
    && Balanced(s, lens) && (forall i :: 0 <= i < |es| ==> EventOk(es[i], lens)) && lens(k).Some?
    && Lookup(s.view, k) == [] && Undisturbed(s, es, k) && Total(RunAll(s, es).view) <= room
    && var a := TakenOf(s, es, k); forall i :: 0 <= i < |a| ==> a[i].t <= ts
  }

  /** The packets of flow `k` among those that this flush puts out. */
  function ComesOut(s: Session, es: seq<Event>, k: UdpKey, ts: nat, room: nat): seq<Mbuf> {
    OfFlow(Emitted(Flush(RunAll(s, es).view, room, DrainBy(ts)).out, Finish), k)
  }

  /** In any run of a table, whatever it held of other flows before and whatever comes
      between: such a flush puts out, among the packets of flow `k`, exactly what its
      fragments alone would come out as. */
  lemma FlowComesOut(s: Session, es: seq<Event>, k: UdpKey, lens: FlowLens, ts: nat, room: nat)
    requires Ripe(s, es, k, lens, ts, room)
    ensures var a := TakenOf(s, es, k); ComesOut(s, es, k, ts, room) == Outcome(a, ts, |a|)
    ensures Lookup(Flush(RunAll(s, es).view, room, DrainBy(ts)).view, k) == []
  {
    var a, v := TakenOf(s, es, k), RunAll(s, es).view;
    RunBalanced(s, es, lens);
    RunChain(s, es, k);
    TakenOk(s, es, k, lens);
    ArriveKeeps(k, [], a, lens(k).value, ts);
    DrainFacts(ts);
    FlushAt(v, room, DrainBy(ts), k);
    var c, left := Lookup(v, k), RoomAt(v, room, DrainBy(ts), k);
    DrainEmpties(c, ts, left);
    DrainRoom(c, ts, left, |a|);
    FlushConserves(v, room, ts, lens);
    EmittedOfFlow(Flush(v, room, DrainBy(ts)).out, k, lens);
    if Find(v, k) == |v| {
      assert c == [];
    }
  }

  /** So if they do not overlap, all their bytes come out, and as the maximal contiguous
      runs if and only if these fit. */
  lemma FlowRuns(s: Session, es: seq<Event>, k: UdpKey, lens: FlowLens, ts: nat, room: nat)
    requires Ripe(s, es, k, lens, ts, room) && Fragments(k, TakenOf(s, es, k), lens(k).value)
    ensures var rs := RunsOf(ComesOut(s, es, k, ts, room));
      && Runs.SumRuns(k, rs) == ArrivalUnits(TakenOf(s, es, k))
      && (Runs.Maximal(rs) <==> RunsFit(TakenOf(s, es, k), lens(k).value))
  {
    FlowComesOut(s, es, k, lens, ts, room);
    FlushedRuns(k, TakenOf(s, es, k), lens(k).value, ts, |TakenOf(s, es, k)|);
  }

  /** Order independence in a table: the bytes of a flow come out as the same runs from any
      two tables and runs that took them, however they were cut, whatever order they came
      in, and whatever other flows were there. */
  lemma FlowOrder(s: Session, es: seq<Event>, ts: nat, room: nat, s': Session, es': seq<Event>, ts': nat, room': nat,
                  k: UdpKey, lens: FlowLens)
    requires Ripe(s, es, k, lens, ts, room) && Ripe(s', es', k, lens, ts', room')
    requires var a, b, l := TakenOf(s, es, k), TakenOf(s', es', k), lens(k).value;
      Fragments(k, a, l) && Fragments(k, b, l) && RunsFit(a, l) && ArrivalUnits(a) == ArrivalUnits(b)
    ensures RunsOf(ComesOut(s, es, k, ts, room)) == RunsOf(ComesOut(s', es', k, ts', room'))
  {
    FlowRuns(s, es, k, lens, ts, room);
    FlowRuns(s', es', k, lens, ts', room');
    SameCover(k, TakenOf(s, es, k), TakenOf(s', es', k), lens(k).value);
    Runs.SameRuns(k, RunsOf(ComesOut(s, es, k, ts, room)), RunsOf(ComesOut(s', es', k, ts', room')));
  }

  // ----- Getting in

  /** The fragments of flow `k` among the events. */
  function ArrivalsOf(es: seq<Event>, k: UdpKey): seq<Arrival> {
    if es == [] then [] else ArrivalOf(es[0], k) + ArrivalsOf(es[1..], k)
  }

  function ArrivalOf(e: Event, k: UdpKey): seq<Arrival> {
    if e.Packet? && KeyOf(e.p.hdr) == k && !Rejected(e.p) then [Arrival(e.p, e.t)] else []
  }

  /** With a free slot for each, all fragments get in. */
  lemma {:induction false} AllTaken(s: Session, es: seq<Event>, k: UdpKey)
    requires Wf(s.view) && Total(s.view) + |es| <= |s.view|
    ensures TakenOf(s, es, k) == ArrivalsOf(es, k)
    decreases |es|
  {
    if es != [] {
      NextWf(s, es[0]);
      OneTaken(s, es[0], k);
      AllTaken(Next(s, es[0]), es[1..], k);
    }
  }

  lemma OneTaken(s: Session, e: Event, k: UdpKey)
    requires Wf(s.view) && Total(s.view) < |s.view|
    ensures TakenBy(s, e, k) == ArrivalOf(e, k)
  {
    if e.Packet? {
      AcceptWf(s.view, e.p, e.t);
    }
  }
}
