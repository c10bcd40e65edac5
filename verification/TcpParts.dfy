/**
  Which packets made which item of a TCP table. Forgetting the packets gives the table of
  `TcpSessions` back.
 */
module TcpParts {
  import opened Basics
  import opened Packets
  import opened Parts
  import opened FlowTable
  import opened FlowMap
  import opened FlushLoop
  import opened Tcp
  import opened TcpLaws
  import opened TcpStreams
  import opened TcpSessions

  type TracedItem = Traced<TcpItem>
  type TracedView = seq<Flow<TcpKey, TracedItem>>
  type TcpTrace = Trace<TcpKey, TcpItem>

  // ----- One call

  /** The decision about the item, and the packets of the item it makes. */
  function TraceDecide(c: seq<TracedItem>, p: Mbuf, tunnel: bool): (d: Decision<TracedItem>)
    ensures Applies(d, |c|)
  {
    match Decide(ItemsOf(c), p, 0, tunnel)
    case MergeAt(k, m) => MergeAt(k, Traced(m, Joined(c[k].parts, [p], Check(c[k].item, p, tunnel))))
    case InsertAt(k) => InsertAt(k)
  }

  function TraceStore(tv: TracedView, p: Mbuf, t: nat, tunnel: bool): Stored<TcpKey, TracedItem> {
    var key := KeyOf(p.hdr, tunnel);
    Store(tv, key, Traced(Fresh(p, t, tunnel), [p]), TraceDecide(Lookup(tv, key), p, tunnel))
  }

  function MadeDue(x: TracedItem): TracedItem { x.(item := x.item.(startTime := 0)) }

  /** The table that the scan for `p` finds. */
  function TraceScanned(tv: TracedView, p: Mbuf, tunnel: bool): TracedView {
    var i := Find(tv, KeyOf(p.hdr, tunnel));
    if !tunnel && i < |tv| && tv[i].chain != [] && p.hdr.tcpFlags != ACK_FLAG then
      tv[i := Flow(tv[i].key, tv[i].chain[0 := MadeDue(tv[i].chain[0])])]
    else tv
  }

  function TraceAccept(tv: TracedView, p: Mbuf, t: nat, tunnel: bool): Stored<TcpKey, TracedItem> {
    if Scans(Forget(tv), p, tunnel) then TraceStore(TraceScanned(tv, p, tunnel), p, t, tunnel) else Stored(tv, -1)
  }

  lemma StoreForgets(tv: TracedView, p: Mbuf, t: nat, tunnel: bool)
    ensures var s := TraceStore(tv, p, t, tunnel);
      StoreScanned(Forget(tv), p, t, tunnel) == Stored(Forget(s.view), s.ret)
  {
    var key := KeyOf(p.hdr, tunnel);
    var c := Lookup(tv, key);
    MapLookup(tv, ItemOf(), key);
    assert MapDecision(TraceDecide(c, p, tunnel), ItemOf()) == Decide(ItemsOf(c), p, 0, tunnel);
    MapStore(tv, key, Traced(Fresh(p, t, tunnel), [p]), TraceDecide(c, p, tunnel), ItemOf());
  }

  lemma ScannedForgets(tv: TracedView, p: Mbuf, tunnel: bool)
    ensures Forget(TraceScanned(tv, p, tunnel)) == Scanned(Forget(tv), p, tunnel)
  {
    var i := Find(tv, KeyOf(p.hdr, tunnel));
    MapFinds(tv, ItemOf(), KeyOf(p.hdr, tunnel));
    if !tunnel && i < |tv| && tv[i].chain != [] && p.hdr.tcpFlags != ACK_FLAG {
      MapUpdate(tv[i].chain, 0, MadeDue(tv[i].chain[0]), ItemOf());
      MapSlot(tv, i, TraceScanned(tv, p, tunnel)[i], ItemOf());
    }
  }

  /** Forgetting the packets, a call is that of `TcpSessions`. */
  lemma AcceptForgets(tv: TracedView, p: Mbuf, t: nat, tunnel: bool)
    requires Wf(Forget(tv))
    ensures var s := TraceAccept(tv, p, t, tunnel); Accept(Forget(tv), p, t, tunnel) == Stored(Forget(s.view), s.ret)
  {
    AcceptScans(Forget(tv), p, t, tunnel);
    if Scans(Forget(tv), p, tunnel) {
      ScannedForgets(tv, p, tunnel);
      StoreForgets(TraceScanned(tv, p, tunnel), p, t, tunnel);
    }
  }

  // ----- What a call keeps

  ghost predicate OfFlow(k: TcpKey, parts: seq<Mbuf>, tunnel: bool) {
    forall i :: 0 <= i < |parts| ==> KeyOf(parts[i].hdr, tunnel) == k
  }

  /** The item has the buffers of its packets, which are of its flow, and the header of
      the first one; one packet alone is left as it is. */
  ghost predicate Has(k: TcpKey, it: TcpItem, parts: seq<Mbuf>, tunnel: bool) {
    && parts != [] && OfFlow(k, parts, tunnel)
    && it.firstseg.segs == JoinSegs(parts) && it.firstseg.hdr == parts[0].hdr
    && (|parts| == 1 ==> it.nbMerged == 1 && it.firstseg == parts[0])
  }

  /** So it is for every item; and if its flow is one with known header lengths, the item
      is what merging its packets gives. */
  ghost predicate SoundIn(k: TcpKey, x: TracedItem, l: Option<Lengths>, tunnel: bool) {
    && Has(k, x.item, x.parts, tunnel)
    && (l.Some? ==> ItemOk(k, x.item, l.value, tunnel) && Built(k, x.item, x.parts, tunnel))
  }

  ghost function Sound(lens: FlowLens, tunnel: bool): (TcpKey, TracedItem) -> bool {
    (k: TcpKey, x: TracedItem) => SoundIn(k, x, lens(k), tunnel)
  }

  lemma MergeHas(k: TcpKey, it: TcpItem, parts: seq<Mbuf>, p: Mbuf, cmp: int, tunnel: bool)
    requires Has(k, it, parts, tunnel) && KeyOf(p.hdr, tunnel) == k
    ensures Has(k, Merge(it, p, cmp, tunnel), Joined(parts, [p], cmp), tunnel)
  {
    JoinOne(parts, p, tunnel);
    MergeHeader(it, p, cmp, tunnel);
  }

  lemma JoinedOnce(parts: seq<Mbuf>, p: Mbuf, cmp: int)
    ensures multiset(Joined(parts, [p], cmp)) == multiset(parts) + multiset{p}
  {}

  lemma SoundAt(k: TcpKey, c: seq<TracedItem>, i: nat, lens: FlowLens, tunnel: bool)
    requires All(k, c, Sound(lens, tunnel)) && i < |c|
    ensures SoundIn(k, c[i], lens(k), tunnel)
  {
    assert Sound(lens, tunnel)(k, c[i]);
  }

  lemma DecideSound(c: seq<TracedItem>, p: Mbuf, lens: FlowLens, tunnel: bool)
    requires All(KeyOf(p.hdr, tunnel), c, Sound(lens, tunnel)) && ArrivalOk(p, lens, tunnel)
    ensures var k := KeyOf(p.hdr, tunnel); var d := TraceDecide(c, p, tunnel); d.MergeAt? ==>
      && Sound(lens, tunnel)(k, d.merged)
      && PartsOf(k, d.merged) == PartsOf(k, c[d.at]) + multiset{p}
  {
    var k, items := KeyOf(p.hdr, tunnel), ItemsOf(c);
    var s := StopAt(items, p, 0, tunnel);
    DecideStops(items, p, 0, tunnel);
    if Merges(items, p, tunnel) {
      SoundAt(k, c, s, lens, tunnel);
      JoinedOnce(c[s].parts, p, Check(items[s], p, tunnel));
      MergeHas(k, items[s], c[s].parts, p, Check(items[s], p, tunnel), tunnel);
      if lens(k).Some? {
        MergeOk(k, items[s], p, lens(k).value, tunnel);
        MergeBuilt(k, items[s], c[s].parts, p, lens(k).value, tunnel);
      }
    }
  }

  lemma FreshHas(p: Mbuf, t: nat, tunnel: bool)
    ensures Has(KeyOf(p.hdr, tunnel), Fresh(p, t, tunnel), [p], tunnel)
  {
    assert JoinSegs([p][1..]) == [];
  }

  lemma StoreSound(tv: TracedView, p: Mbuf, t: nat, lens: FlowLens, tunnel: bool)
    requires AllHeld(tv, Sound(lens, tunnel)) && ArrivalOk(p, lens, tunnel)
    ensures var s := TraceStore(tv, p, t, tunnel);
      && AllHeld(s.view, Sound(lens, tunnel))
      && Held(s.view, PartsOf) == Held(tv, PartsOf) + (if s.ret == -1 then multiset{} else multiset{p})
  {
    var key, x := KeyOf(p.hdr, tunnel), Traced(Fresh(p, t, tunnel), [p]);
    var d := TraceDecide(Lookup(tv, key), p, tunnel);
    LookupAll(tv, key, Sound(lens, tunnel));
    DecideSound(Lookup(tv, key), p, lens, tunnel);
    if lens(key).Some? {
      FreshOk(p, t, lens(key).value, tunnel);
    }
    FreshBuilt(p, t, tunnel);
    FreshHas(p, t, tunnel);
    StoreAll(tv, key, x, d, Sound(lens, tunnel));
    assert PartsOf(key, x) == multiset{p};
    StoreHeld(tv, key, x, d, PartsOf);
  }

  lemma ScannedSound(tv: TracedView, p: Mbuf, lens: FlowLens, tunnel: bool)
    requires AllHeld(tv, Sound(lens, tunnel))
    ensures var tv' := TraceScanned(tv, p, tunnel);
      AllHeld(tv', Sound(lens, tunnel)) && Held(tv', PartsOf) == Held(tv, PartsOf)
  {
    var i, tv' := Find(tv, KeyOf(p.hdr, tunnel)), TraceScanned(tv, p, tunnel);
    if tv' != tv {
      var k, c := tv[i].key, tv[i].chain;
      assert All(k, c, Sound(lens, tunnel)) && Sound(lens, tunnel)(k, c[0]);
      DueSound(k, c, lens, tunnel);
      HeldSlot(tv, i, PartsOf);
      HeldUpdate(tv, i, tv'[i], PartsOf);
      forall j | 0 <= j < |tv'| && tv'[j].Flow? ensures All(tv'[j].key, tv'[j].chain, Sound(lens, tunnel)) {
        assert j != i ==> All(tv[j].key, tv[j].chain, Sound(lens, tunnel));
      }
    }
  }

  lemma DueBuilt(k: TcpKey, x: TracedItem, l: Option<Lengths>, tunnel: bool)
    requires SoundIn(k, x, l, tunnel)
    ensures SoundIn(k, MadeDue(x), l, tunnel)
  {
    assert forall i :: 0 <= i < |x.parts| && Alike(k, x.item, x.parts[i], tunnel) ==>
      Alike(k, MadeDue(x).item, x.parts[i], tunnel);
  }

  lemma DueSound(k: TcpKey, c: seq<TracedItem>, lens: FlowLens, tunnel: bool)
    requires c != [] && All(k, c, Sound(lens, tunnel))
    ensures All(k, c[0 := MadeDue(c[0])], Sound(lens, tunnel))
    ensures InChain(k, c[0 := MadeDue(c[0])], PartsOf) == InChain(k, c, PartsOf)
  {
    SoundAt(k, c, 0, lens, tunnel);
    DueBuilt(k, c[0], lens(k), tunnel);
    assert c[0 := MadeDue(c[0])][1..] == c[1..];
  }

  lemma AcceptSound(tv: TracedView, p: Mbuf, t: nat, lens: FlowLens, tunnel: bool)
    requires AllHeld(tv, Sound(lens, tunnel)) && (Rejected(p, tunnel) || ArrivalOk(p, lens, tunnel))
    ensures var s := TraceAccept(tv, p, t, tunnel);
      && AllHeld(s.view, Sound(lens, tunnel))
      && Held(s.view, PartsOf) == Held(tv, PartsOf) + (if s.ret == -1 then multiset{} else multiset{p})
  {
    if Scans(Forget(tv), p, tunnel) {
      ScannedSound(tv, p, lens, tunnel);
      StoreSound(TraceScanned(tv, p, tunnel), p, t, lens, tunnel);
    }
  }

  // ----- Flushing

  function TraceDrain(c: seq<TracedItem>, ts: nat, room: nat): Drain<TracedItem> {
    if c == [] || room == 0 || c[0].item.startTime > ts then Drain([], c)
    else
      var d := TraceDrain(c[1..], ts, room - 1);
      Drain([c[0]] + d.out, d.rest)
  }

  function TraceDrainBy(ts: nat): Drainer<TracedItem> {
    (c: seq<TracedItem>, room: nat) => TraceDrain(c, ts, room)
  }

  lemma DrainHeadOut(c: seq<TracedItem>, ts: nat, room: nat)
    requires c != [] && room > 0 && c[0].item.startTime <= ts
    ensures var d := TraceDrain(c[1..], ts, room - 1); TraceDrain(c, ts, room) == Drain([c[0]] + d.out, d.rest)
  {}

  lemma {:induction false} DrainForgets(c: seq<TracedItem>, ts: nat, room: nat)
    ensures DrainChain(ItemsOf(c), ts, room) == MapDrain(TraceDrain(c, ts, room), ItemOf())
  {
    if c != [] && room > 0 && c[0].item.startTime <= ts {
      assert ItemsOf(c)[1..] == MapChain(c[1..], ItemOf());
      DrainForgets(c[1..], ts, room - 1);
      DrainHeadOut(c, ts, room);
      MapHead(c[0], TraceDrain(c[1..], ts, room - 1));
    }
  }

  lemma {:induction false} DrainSplits(c: seq<TracedItem>, ts: nat, room: nat)
    ensures var d := TraceDrain(c, ts, room); c == d.out + d.rest
  {
    if c != [] && room > 0 && c[0].item.startTime <= ts {
      DrainSplits(c[1..], ts, room - 1);
      DrainHeadOut(c, ts, room);
      HeadFirst(c, TraceDrain(c[1..], ts, room - 1));
    }
  }

  lemma HeadFirst(c: seq<TracedItem>, d: Drain<TracedItem>)
    requires c != [] && c[1..] == d.out + d.rest
    ensures c == ([c[0]] + d.out) + d.rest
  {
    assert c == [c[0]] + c[1..];
  }

  lemma DrainSound(k: TcpKey, c: seq<TracedItem>, ts: nat, room: nat, ok: (TcpKey, TracedItem) -> bool)
    requires All(k, c, ok)
    ensures Drained(k, c, TraceDrain(c, ts, room), ok, PartsOf)
  {
    var d := TraceDrain(c, ts, room);
    DrainSplits(c, ts, room);
    InChainConcat(k, d.out, d.rest, PartsOf);
    AllParts(k, c, d.out, d.rest, ok);
  }

  lemma DrainsSound(ts: nat, ok: (TcpKey, TracedItem) -> bool)
    ensures forall k, c, n: nat :: All(k, c, ok) ==> Drained(k, c, TraceDrainBy(ts)(c, n), ok, PartsOf)
  {
    forall k, c, n: nat | All(k, c, ok) ensures Drained(k, c, TraceDrainBy(ts)(c, n), ok, PartsOf) {
      DrainSound(k, c, ts, n, ok);
    }
  }

  lemma DrainsForget(ts: nat)
    ensures forall c: seq<TracedItem> :: Mapped(c, TraceDrainBy(ts), DrainBy(ts), ItemOf())
  {
    forall c: seq<TracedItem> ensures Mapped(c, TraceDrainBy(ts), DrainBy(ts), ItemOf()) {
      forall r: nat ensures DrainBy(ts)(ItemsOf(c), r) == MapDrain(TraceDrainBy(ts)(c, r), ItemOf()) {
        DrainForgets(c, ts, r);
      }
    }
  }

  // ----- Runs

  function TraceNext(tr: TcpTrace, e: Event, tunnel: bool): TcpTrace {
    match e
    case Packet(p, t) => tr.(view := TraceAccept(tr.view, p, t, tunnel).view)
    case Timeout(ts, room) =>
      var r := Flush(tr.view, room, TraceDrainBy(ts));
      Trace(r.view, tr.out + r.out)
  }

  function TraceAll(tr: TcpTrace, es: seq<Event>, tunnel: bool): TcpTrace
    decreases |es|
  {
    if es == [] then tr else TraceAll(TraceNext(tr, es[0], tunnel), es[1..], tunnel)
  }

  /** The trace explains the session: its items are those of the table and what merging
      their packets gives, its output gives the packets put out in order, and each packet
      taken is in exactly one item or one packet put out. */
  ghost predicate Explains(tr: TcpTrace, s: Session, lens: FlowLens, tunnel: bool) {
    && Wf(s.view) && s.view == Forget(tr.view) && s.out == Emitted(tr.out, FinishItem(FinishBy(tunnel)))
    && AllHeld(tr.view, Sound(lens, tunnel)) && AllOut(tr.out, Sound(lens, tunnel))
    && multiset(s.taken) == Held(tr.view, PartsOf) + InOut(tr.out, PartsOf)
  }

  lemma PacketExplained(tr: TcpTrace, s: Session, p: Mbuf, t: nat, lens: FlowLens, tunnel: bool)
    requires Explains(tr, s, lens, tunnel) && EventOk(Packet(p, t), lens, tunnel)
    requires Wf(Next(s, Packet(p, t), tunnel).view)
    ensures Explains(TraceNext(tr, Packet(p, t), tunnel), Next(s, Packet(p, t), tunnel), lens, tunnel)
  {
    AcceptForgets(tr.view, p, t, tunnel);
    AcceptSound(tr.view, p, t, lens, tunnel);
    var r := TraceAccept(tr.view, p, t, tunnel);
    Take(multiset(s.taken), Held(tr.view, PartsOf), InOut(tr.out, PartsOf), multiset{p});
    if r.ret == -1 {
      assert Held(tr.view, PartsOf) + multiset{} == Held(tr.view, PartsOf);
    } else {
      assert multiset(s.taken + [p]) == multiset(s.taken) + multiset{p};
    }
  }

  lemma TimeoutExplained(tr: TcpTrace, s: Session, ts: nat, room: nat, lens: FlowLens, tunnel: bool)
    requires Explains(tr, s, lens, tunnel) && Wf(Next(s, Timeout(ts, room), tunnel).view)
    ensures Explains(TraceNext(tr, Timeout(ts, room), tunnel), Next(s, Timeout(ts, room), tunnel), lens, tunnel)
  {
    var r := Flush(tr.view, room, TraceDrainBy(ts));
    DrainsForget(ts);
    FlushForgets(tr.view, room, TraceDrainBy(ts), DrainBy(ts), FinishBy(tunnel));
    DrainsSound(ts, Sound(lens, tunnel));
    FlushSound(tr.view, room, TraceDrainBy(ts), Sound(lens, tunnel));
    EmittedConcat(tr.out, r.out, FinishItem(FinishBy(tunnel)));
    AllOutConcat(tr.out, r.out, Sound(lens, tunnel));
    InOutConcat(tr.out, r.out, PartsOf);
    Move(multiset(s.taken), Held(tr.view, PartsOf), InOut(tr.out, PartsOf), InOut(r.out, PartsOf),
         Held(r.view, PartsOf));
  }

  /** In every run each packet taken is in exactly one item of the table or one packet put
      out, and each of these is what merging its packets gives: in sequence order, of one
      flow, with the payload and the buffers of its packets in that order, and tunnelled
      ones with consecutive outer identifiers. */
  lemma {:induction false} RunBuilt(tr: TcpTrace, s: Session, es: seq<Event>, lens: FlowLens, tunnel: bool)
    requires Explains(tr, s, lens, tunnel)
    requires forall i :: 0 <= i < |es| ==> EventOk(es[i], lens, tunnel)
    ensures Explains(TraceAll(tr, es, tunnel), RunAll(s, es, tunnel), lens, tunnel)
    decreases |es|
  {
    if es != [] {
      NextWf(s, es[0], tunnel);
      match es[0] {
        case Packet(p, t) => PacketExplained(tr, s, p, t, lens, tunnel);
        case Timeout(ts, room) => TimeoutExplained(tr, s, ts, room, lens, tunnel);
      }
      RunBuilt(TraceNext(tr, es[0], tunnel), Next(s, es[0], tunnel), es[1..], lens, tunnel);
    }
  }

  /** So the flags in the header of a packet put out are those of its first packet, and
      those of another packet in it are there exactly if the first one has them as well. */
  lemma FlagsPutOut(tr: TcpTrace, s: Session, lens: FlowLens, tunnel: bool, i: nat)
    requires Explains(tr, s, lens, tunnel) && i < |tr.out|
    ensures var parts := tr.out[i].item.parts;
      && |s.out| == |tr.out| && parts != [] && s.out[i].hdr.tcpFlags == parts[0].hdr.tcpFlags
      && forall j :: 0 <= j < |parts| ==>
           (HasFlags(s.out[i], parts[j].hdr.tcpFlags) <==> HasFlags(parts[0], parts[j].hdr.tcpFlags))
  {
    assert Sound(lens, tunnel)(tr.out[i].key, tr.out[i].item);
    assert s.out[i] == Finish(tr.out[i].item.item, tunnel);
  }

  /** A packet put out: one alone comes out as it went in, and of a merged one the length
      fields are its true byte counts and the payload is that of its packets, as far as no
      flags were set. */
  lemma PutOut(tr: TcpTrace, s: Session, lens: FlowLens, tunnel: bool, i: nat)
    requires Explains(tr, s, lens, tunnel) && i < |tr.out|
    ensures |s.out| == |tr.out|
    ensures var parts := tr.out[i].item.parts; var m := s.out[i];
      && OfFlow(tr.out[i].key, parts, tunnel) && m.segs == JoinSegs(parts) && (|parts| == 1 ==> m == parts[0])
      && (lens(tr.out[i].key).Some? ==>
        && Consecutive(parts, tunnel) && (|parts| > 1 ==> HeaderTrue(m, tunnel))
        && |Bytes(m, tunnel)| == |JoinBytes(parts, tunnel)|
        && (AckOnly(parts) ==> Bytes(m, tunnel) == JoinBytes(parts, tunnel)))
  {
    var k, x := tr.out[i].key, tr.out[i].item;
    assert Sound(lens, tunnel)(k, x);
    assert s.out[i] == Finish(x.item, tunnel);
    if lens(k).Some? {
      FinishOk(k, x.item, lens(k).value, tunnel);
    }
  }

  lemma NewExplained(n: nat, lens: FlowLens, tunnel: bool)
    ensures Explains(NewTrace(n), NewTable(n), lens, tunnel)
  {
    EmptyHolds(NewTrace<TcpKey, TcpItem>(n).view, PartsOf);
    EmptyHolds(NewTable(n).view, ItemBuffers);
  }

  /** So it is in every run of a new table. */
  lemma BuiltFromNew(n: nat, es: seq<Event>, lens: FlowLens, tunnel: bool)
    requires forall i :: 0 <= i < |es| ==> EventOk(es[i], lens, tunnel)
    ensures Explains(TraceAll(NewTrace(n), es, tunnel), RunAll(NewTable(n), es, tunnel), lens, tunnel)
  {
    NewExplained(n, lens, tunnel);
    RunBuilt(NewTrace(n), NewTable(n), es, lens, tunnel);
  }
}
