/**
  Arrival order of the TCP chains, what a flush takes, and the flags PSH and FIN.
 */
module TcpTimes {
  import opened Basics
  import opened Packets
  import opened FlowTable
  import opened Tcp
  import opened TcpLaws

  ghost predicate TimeSorted(c: seq<TcpItem>) {
    forall i, j :: 0 <= i < j < |c| ==> c[i].startTime <= c[j].startTime
  }

  ghost predicate NotAfter(c: seq<TcpItem>, t: nat) {
    forall i :: 0 <= i < |c| ==> c[i].startTime <= t
  }

  /** Storing a packet that arrives no earlier than the stored ones keeps the chain in
      order of time, except exactly when its merge is refused and it is put in front of
      an older item. */
  lemma StepTimes(c: seq<TcpItem>, p: Mbuf, t: nat, tunnel: bool)
    requires TimeSorted(c) && NotAfter(c, t)
    ensures NotAfter(StepChain(c, p, t, tunnel), t)
    ensures TimeSorted(StepChain(c, p, t, tunnel)) <==>
      (Refused(c, p, tunnel) ==> Place(c, p, tunnel) == |c| || c[Place(c, p, tunnel)].startTime == t)
  {
    DecideStops(c, p, 0, tunnel);
    var c' := StepChain(c, p, t, tunnel);
    if Merges(c, p, tunnel) {
      assert forall i :: 0 <= i < |c| ==> c'[i].startTime == c[i].startTime;
    } else {
      InsertTimes(c, Place(c, p, tunnel), Fresh(p, t, tunnel));
    }
  }

  lemma InsertTimes(c: seq<TcpItem>, at: nat, x: TcpItem)
    requires TimeSorted(c) && NotAfter(c, x.startTime) && at <= |c|
    ensures NotAfter(Insert(c, at, x), x.startTime)
    ensures TimeSorted(Insert(c, at, x)) <==> at == |c| || c[at].startTime == x.startTime
  {
    var c' := Insert(c, at, x);
    assert forall i :: 0 <= i < |c'| ==> c'[i] == (if i < at then c[i] else if i == at then x else c[i - 1]);
    if TimeSorted(c') && at < |c| {
      assert c'[at] == x && c'[at + 1] == c[at];
    }
  }

  /** Making the head due keeps the order. */
  lemma HeadDueTimes(c: seq<TcpItem>, t: nat)
    requires c != [] && TimeSorted(c) && NotAfter(c, t)
    ensures TimeSorted(c[0 := c[0].(startTime := 0)]) && NotAfter(c[0 := c[0].(startTime := 0)], t)
  {}

  /** With room, a flush of a chain in order of time takes exactly the due items. */
  lemma {:induction false} DrainTakesDue(c: seq<TcpItem>, ts: nat, room: nat)
    requires TimeSorted(c) && |c| <= room
    ensures NotAfter(DrainChain(c, ts, room).out, ts) && NotDueAll(DrainChain(c, ts, room).rest, ts)
  {
    if c != [] && c[0].startTime <= ts {
      DrainTakesDue(c[1..], ts, room - 1);
    } else if c != [] {
      assert forall i :: 0 < i < |c| ==> c[0].startTime <= c[i].startTime;
    }
  }

  ghost predicate AllTimeSorted(v: TcpView) {
    forall i :: 0 <= i < |v| && v[i].Flow? ==> TimeSorted(v[i].chain)
  }

  function Due(ts: nat): (TcpKey, TcpItem) -> bool { (k: TcpKey, it: TcpItem) => it.startTime <= ts }

  function NotDue(ts: nat): (TcpKey, TcpItem) -> bool { (k: TcpKey, it: TcpItem) => it.startTime > ts }

  /** Flush completeness: if all chains are in order of time and there is room for
      everything, exactly the items with `start_time <= ts` leave the table. */
  lemma {:induction false} FlushTakesDue(v: TcpView, room: nat, ts: nat)
    requires AllTimeSorted(v) && NonEmpty(v) && Total(v) <= room
    ensures var r := Flush(v, room, DrainBy(ts)); AllOut(r.out, Due(ts)) && AllHeld(r.view, NotDue(ts))
    ensures |Flush(v, room, DrainBy(ts)).out| + Total(Flush(v, room, DrainBy(ts)).view) == Total(v)
  {
    if v != [] && room > 0 {
      assert forall i :: 0 <= i < |v[1..]| ==> v[1..][i] == v[i + 1];
      var r := Flush(v, room, DrainBy(ts));
      var d := if v[0].Flow? then DrainChain(v[0].chain, ts, room) else Drain([], []);
      var r' := Flush(v[1..], Less(room, |d.out|), DrainBy(ts));
      if v[0].Flow? {
        DrainTakesDue(v[0].chain, ts, room);
        DrainBound(v[0].chain, ts, room);
      }
      FlushTakesDue(v[1..], Less(room, |d.out|), ts);
      assert r.view[1..] == r'.view;
      forall i | 0 <= i < |r.out| ensures Due(ts)(r.out[i].key, r.out[i].item) {
        if v[0].Flow? { assert r.out == Tag(v[0].key, d.out) + r'.out; }
      }
      forall i | 0 <= i < |r.view| && r.view[i].Flow? ensures All(r.view[i].key, r.view[i].chain, NotDue(ts)) {
        if i > 0 { assert r.view[i] == r'.view[i - 1]; }
      }
    } else {
      EmptyOrFull(v, ts);
    }
  }

  lemma EmptyOrFull(v: TcpView, ts: nat)
    requires NonEmpty(v) && (v == [] || Total(v) == 0)
    ensures AllHeld(v, NotDue(ts))
  {
    LiveWithinTotal(v);
    LiveCounts(v);
  }

  // ----- PSH and FIN

  /** The head of the chain is due, and the item behind it is not. */
  ghost predicate OnlyHead(c: seq<TcpItem>, ts: nat) {
    c != [] && c[0].startTime <= ts && (|c| > 1 ==> c[1].startTime > ts)
  }

  function HeadZero(c: seq<TcpItem>): seq<TcpItem>
    requires c != []
  {
    c[0 := c[0].(startTime := 0)]
  }

  lemma StepHead(c: seq<TcpItem>, p: Mbuf, t: nat, ts: nat, b: nat)
    requires c != [] && NotDueAll(c, ts) && t > ts
    requires b in p.segs && forall i :: 0 <= i < |c| ==> b !in c[i].firstseg.segs
    ensures var c0 := HeadZero(c); var c' := StepChain(c0, p, t, false);
      OnlyHead(c', ts) && (b in c'[0].firstseg.segs <==> Merges(c0, p, false) && StopAt(c0, p, 0, false) == 0)
  {
    var c0 := HeadZero(c);
    DecideStops(c0, p, 0, false);
    var c', s := StepChain(c0, p, t, false), StopAt(c0, p, 0, false);
    if Merges(c0, p, false) {
      MergedSegs(c0[s], p, Check(c0[s], p, false), b);
      assert forall i :: 0 <= i < |c0| && i != s ==> c'[i] == c0[i];
    } else {
      var at := Place(c0, p, false);
      assert at > 0;
      assert forall i :: 0 <= i < |c'| ==>
        c'[i] == (if i < at then c0[i] else if i == at then Fresh(p, t, false) else c0[i - 1]);
    }
  }

  predicate HasPushOrFin(p: Mbuf) { p.hdr.tcpFlags & (PSH_FLAG | FIN_FLAG) != 0 }

  lemma MoreThanAck(flags: byte)
    requires flags & (PSH_FLAG | FIN_FLAG) != 0
    ensures flags != ACK_FLAG && flags & VALID_FLAGS != 0
  {
    assert (flags & VALID_FLAGS) & (PSH_FLAG | FIN_FLAG) == flags & (PSH_FLAG | FIN_FLAG);
  }

  /** The chain of the flow of a packet with PSH or FIN after its call: the packet stepped
      it from a head made due, or found no slot and only made the head due. */
  lemma PushedChain(v: TcpView, p: Mbuf, t: nat)
    requires Wf(v) && !PlainRejected(p) && HasPushOrFin(p) && Lookup(v, KeyOf(p.hdr, false)) != []
    ensures var k := KeyOf(p.hdr, false); var c0 := HeadZero(Lookup(v, k)); var s := PlainAccept(v, p, t);
      var c' := if s.ret == -1 then c0 else StepChain(c0, p, t, false);
      s.view == v[Find(v, k) := Flow(k, c')] && (s.ret == -1 ==> !Merges(c0, p, false))
  {
    var k := KeyOf(p.hdr, false);
    var i, v0 := Find(v, k), HeadDue(v, p);
    MoreThanAck(p.hdr.tcpFlags);
    FindUpdated(v, i, v0, k);
    DecideStops(HeadZero(Lookup(v, k)), p, 0, false);
  }

  /** The packet makes the head of its flow due, and nothing else: the next flush, if
      nothing was due before, puts out that head alone. The packet's own data leaves with
      it exactly if the packet was merged into the head; otherwise it stays, although
      README.md section 5 of the repository says it is flushed at once. */
  lemma PushFlushesHead(v: TcpView, p: Mbuf, t: nat, ts: nat, room: nat, b: nat)
    requires Wf(v) && !PlainRejected(p) && HasPushOrFin(p) && Lookup(v, KeyOf(p.hdr, false)) != []
    requires AllHeld(v, NotDue(ts)) && t > ts && room > 0
    requires b in p.segs && AllHeld(v, (k, it: TcpItem) => b !in it.firstseg.segs)
    ensures var k := KeyOf(p.hdr, false); var c0 := HeadZero(Lookup(v, k)); var i := Find(v, k);
      var v' := PlainAccept(v, p, t).view; var r := Flush(v', room, DrainBy(ts));
      && v'[i].Flow? && v'[i].key == k && v'[i].chain != []
      && r.out == [Tagged(k, v'[i].chain[0])] && r.view == v'[i := SlotFor(k, v'[i].chain[1..])]
      && (b in r.out[0].item.firstseg.segs <==> Merges(c0, p, false) && StopAt(c0, p, 0, false) == 0)
  {
    var k := KeyOf(p.hdr, false);
    var c, i, v' := Lookup(v, k), Find(v, k), PlainAccept(v, p, t).view;
    PushedChain(v, p, t);
    assert All(k, c, NotDue(ts)) && All(k, c, (k, it: TcpItem) => b !in it.firstseg.segs);
    assert forall j :: 0 <= j < |c| ==> NotDue(ts)(k, c[j]);
    StepHead(c, p, t, ts, b);
    OthersStay(v, v', i, ts);
    FlushSingle(v', i, room, DrainBy(ts));
    DrainHead(v'[i].chain, ts, room);
  }

  lemma OthersStay(v: TcpView, v': TcpView, i: nat, ts: nat)
    requires i < |v| == |v'| && v' == v[i := v'[i]] && AllHeld(v, NotDue(ts))
    ensures forall j, r: nat :: 0 <= j < |v'| && j != i && v'[j].Flow? ==>
      DrainBy(ts)(v'[j].chain, r) == Drain([], v'[j].chain)
  {
    forall j, r: nat | 0 <= j < |v'| && j != i && v'[j].Flow?
      ensures DrainBy(ts)(v'[j].chain, r) == Drain([], v'[j].chain)
    {
      assert All(v[j].key, v[j].chain, NotDue(ts));
      assert v[j].chain != [] ==> NotDue(ts)(v[j].key, v[j].chain[0]);
    }
  }

  ghost predicate NotDueAll(c: seq<TcpItem>, ts: nat) { forall i :: 0 <= i < |c| ==> c[i].startTime > ts }

  lemma MergedSegs(it: TcpItem, p: Mbuf, cmp: int, b: nat)
    requires b in p.segs
    ensures b in Merge(it, p, cmp, false).firstseg.segs
  {}

  lemma DrainHead(c: seq<TcpItem>, ts: nat, room: nat)
    requires OnlyHead(c, ts) && room > 0
    ensures DrainChain(c, ts, room) == Drain([c[0]], c[1..])
  {}

  /** A refused packet leaves a plain table as it was, exactly unless it carries PSH or
      FIN and its flow has a head that was not due yet: that head is due from then on. */
  lemma RefusalEffect(v: TcpView, p: Mbuf, t: nat)
    requires Wf(v) && PlainAccept(v, p, t).ret == -1
    ensures PlainAccept(v, p, t).view == v <==>
      || PlainRejected(p) || p.hdr.tcpFlags & VALID_FLAGS == 0 || p.hdr.tcpFlags == ACK_FLAG
      || Lookup(v, KeyOf(p.hdr, false)) == [] || Lookup(v, KeyOf(p.hdr, false))[0].startTime == 0
  {
    var i := Find(v, KeyOf(p.hdr, false));
    if i < |v| {
      assert v[i].chain != [];
      var v' := HeadDue(v, p);
      if v'[i] == v[i] {
        assert v' == v;
      }
    }
  }
}
