/**
  Which fragments made which item of a UDP table. Forgetting the fragments gives the table
  of `UdpSessions` back.
 */
module UdpParts {
  import opened Basics
  import opened Packets
  import opened Parts
  import opened FlowTable
  import opened FlowMap
  import opened FlushLoop
  import opened Udp
  import opened UdpLaws
  import opened UdpSessions

  type TracedItem = Traced<UdpItem>
  type TracedView = seq<Flow<UdpKey, TracedItem>>
  type UdpTrace = Trace<UdpKey, UdpItem>

  // ----- Items and their fragments

  function JoinBytes(parts: seq<Mbuf>): seq<byte> {
    if parts == [] then [] else Bytes(parts[0]) + JoinBytes(parts[1..])
  }

  lemma {:induction false} JoinBytesConcat(a: seq<Mbuf>, b: seq<Mbuf>)
    ensures JoinBytes(a + b) == JoinBytes(a) + JoinBytes(b)
  {
    if a == [] {
      assert a + b == b;
    } else {
      assert (a + b)[1..] == a[1..] + b;
      JoinBytesConcat(a[1..], b);
    }
  }

  /** Fragment `q` starts at the offset where fragment `p` ends. */
  predicate Continues(p: Mbuf, q: Mbuf) { FragOffset(q.hdr) == FragOffset(p.hdr) + |Bytes(p)| }

  ghost predicate Contiguous(parts: seq<Mbuf>) { forall i :: 0 < i < |parts| ==> Continues(parts[i - 1], parts[i]) }

  predicate OfFlow(k: UdpKey, parts: seq<Mbuf>) { forall p | p in parts :: KeyOf(p.hdr) == k }

  predicate NoneLast(parts: seq<Mbuf>) { forall p | p in parts :: p.hdr.mf }

  /** The item has the buffers of its fragments, which are of its flow, the header and the
      offset of the first one, and the mark of the last fragment exactly if it is among
      them; one fragment alone is left as it is. */
  ghost predicate Has(k: UdpKey, it: UdpItem, parts: seq<Mbuf>) {
    && parts != [] && OfFlow(k, parts)
    && it.firstseg.segs == JoinSegs(parts) && it.firstseg.hdr == parts[0].hdr
    && it.fragOffset == FragOffset(parts[0].hdr) && (it.isLastFrag <==> !NoneLast(parts))
    && (|parts| == 1 ==> it.nbMerged == 1 && it.firstseg == parts[0])
  }

  /** The item is what merging `parts`, in this order, gives. */
  ghost predicate Built(it: UdpItem, parts: seq<Mbuf>) {
    && Contiguous(parts) && Bytes(it.firstseg) == JoinBytes(parts)
    && (it.nbMerged == 1 <==> |parts| == 1)
  }

  /** So it is for every item: its fragments are of its flow; and if the flow is one with
      known header lengths, the item is what merging them gives. */
  ghost predicate SoundIn(k: UdpKey, x: TracedItem, l: Option<Lengths>) {
    Has(k, x.item, x.parts) && (l.Some? ==> ItemOk(k, x.item, l.value) && Built(x.item, x.parts))
  }

  ghost function Sound(lens: FlowLens): (UdpKey, TracedItem) -> bool {
    (k: UdpKey, x: TracedItem) => SoundIn(k, x, lens(k))
  }

  /** The offset behind a run of fragments. */
  lemma {:induction false} RunEnd(parts: seq<Mbuf>)
    requires parts != [] && Contiguous(parts)
    ensures var z := parts[|parts| - 1];
      FragOffset(z.hdr) + |Bytes(z)| == FragOffset(parts[0].hdr) + |JoinBytes(parts)|
  {
    var rest := parts[1..];
    if rest != [] {
      forall i | 0 < i < |rest| ensures Continues(rest[i - 1], rest[i]) {
        assert rest[i] == parts[i + 1] && rest[i - 1] == parts[i];
      }
      RunEnd(rest);
      assert Continues(parts[0], parts[1]);
    }
  }

  lemma JoinContiguous(a: seq<Mbuf>, b: seq<Mbuf>)
    requires a != [] && b != [] && Contiguous(a) && Contiguous(b)
    requires FragOffset(b[0].hdr) == FragOffset(a[0].hdr) + |JoinBytes(a)|
    ensures Contiguous(a + b) && JoinBytes(a + b) == JoinBytes(a) + JoinBytes(b)
  {
    RunEnd(a);
    JoinBytesConcat(a, b);
    var ps := a + b;
    forall i | 0 < i < |ps| ensures Continues(ps[i - 1], ps[i]) {
      if i < |a| {
        assert Continues(a[i - 1], a[i]);
      } else if i > |a| {
        assert Continues(b[i - |a| - 1], b[i - |a|]);
      }
    }
  }

  // ----- Merging two items

  function CmpItems(x: UdpItem, y: UdpItem): int { CheckNeighbor(x, y.fragOffset, DataLen(y.firstseg)) }

  predicate Foldable(x: UdpItem, y: UdpItem) { CmpItems(x, y) != 0 && CanMerge(x, y.firstseg, CmpItems(x, y)) }

  /** What an item becomes with a neighbour merged into it. */
  function FoldItem(x: UdpItem, y: UdpItem): UdpItem {
    Merge(x, y.firstseg, CmpItems(x, y), y.fragOffset, y.isLastFrag)
  }

  function Fold(x: TracedItem, y: TracedItem): TracedItem {
    Traced(FoldItem(x.item, y.item), Joined(x.parts, y.parts, CmpItems(x.item, y.item)))
  }

  lemma FoldHas(k: UdpKey, x: TracedItem, y: TracedItem)
    requires Has(k, x.item, x.parts) && Has(k, y.item, y.parts)
    ensures Has(k, Fold(x, y).item, Fold(x, y).parts)
  {
    JoinSegsConcat(x.parts, y.parts);
    JoinSegsConcat(y.parts, x.parts);
    var a, b, ps := x.parts, y.parts, Fold(x, y).parts;
    assert forall p :: p in ps <==> p in a || p in b;
  }

  lemma FoldBuilt(k: UdpKey, x: TracedItem, y: TracedItem, l: Lengths)
    requires SoundIn(k, x, Some(l)) && SoundIn(k, y, Some(l)) && Foldable(x.item, y.item)
    ensures ItemOk(k, FoldItem(x.item, y.item), l) && Built(FoldItem(x.item, y.item), Fold(x, y).parts)
  {
    NeighborMeans(k, x.item, y.item.firstseg, l);
    MergeOk(k, x.item, y.item.firstseg, y.item.isLastFrag, l);
    if CmpItems(x.item, y.item) > 0 {
      JoinContiguous(x.parts, y.parts);
    } else {
      JoinContiguous(y.parts, x.parts);
    }
  }

  lemma FoldSound(k: UdpKey, x: TracedItem, y: TracedItem, l: Option<Lengths>)
    requires SoundIn(k, x, l) && SoundIn(k, y, l) && Foldable(x.item, y.item)
    ensures SoundIn(k, Fold(x, y), l)
  {
    FoldHas(k, x, y);
    if l.Some? {
      FoldBuilt(k, x, y, l.value);
    }
  }

  lemma FoldParts(k: UdpKey, x: TracedItem, y: TracedItem)
    ensures PartsOf(k, Fold(x, y)) == PartsOf(k, x) + PartsOf(k, y)
  {}

  function FreshTraced(p: Mbuf, t: nat): TracedItem { Traced(Fresh(p, t), [p]) }

  lemma FreshSound(p: Mbuf, t: nat, l: Option<Lengths>)
    requires PacketIn(p, l)
    ensures SoundIn(KeyOf(p.hdr), FreshTraced(p, t), l)
  {
    assert [p][1..] == [] && JoinSegs([p]) == p.segs + [] && JoinBytes([p]) == Bytes(p) + [];
    if l.Some? {
      FreshOk(p, t, l.value);
    }
  }

  // ----- One call

  /** The decision about the item, and the fragments of the item it makes. */
  function TraceDecide(c: seq<TracedItem>, p: Mbuf): (d: Decision<TracedItem>)
    ensures Applies(d, |c|)
  {
    match Decide(ItemsOf(c), p, 0)
    case MergeAt(k, m) => MergeAt(k, Traced(m, Joined(c[k].parts, [p], Cmp(c[k].item, p))))
    case InsertAt(k) => InsertAt(k)
  }

  function TraceAccept(tv: TracedView, p: Mbuf, t: nat): Stored<UdpKey, TracedItem> {
    if Rejected(p) then Stored(tv, -1)
    else Store(tv, KeyOf(p.hdr), FreshTraced(p, t), TraceDecide(Lookup(tv, KeyOf(p.hdr)), p))
  }

  /** Forgetting the fragments, a call is that of `Udp`. */
  lemma AcceptForgets(tv: TracedView, p: Mbuf, t: nat)
    ensures var s := TraceAccept(tv, p, t); Accept(Forget(tv), p, t) == Stored(Forget(s.view), s.ret)
  {
    if !Rejected(p) {
      var key := KeyOf(p.hdr);
      var c := Lookup(tv, key);
      MapLookup(tv, ItemOf(), key);
      assert MapDecision(TraceDecide(c, p), ItemOf()) == Decide(ItemsOf(c), p, 0);
      MapStore(tv, key, FreshTraced(p, t), TraceDecide(c, p), ItemOf());
    }
  }

  /** A fragment that is merged is folded into its neighbour like an item of its own. */
  lemma DecideFolds(c: seq<TracedItem>, p: Mbuf, t: nat)
    ensures var d := TraceDecide(c, p); d.MergeAt? ==>
      Foldable(c[d.at].item, Fresh(p, t)) && d.merged == Fold(c[d.at], FreshTraced(p, t))
  {
    DecideStops(ItemsOf(c), p, 0);
  }

  lemma AcceptSound(tv: TracedView, p: Mbuf, t: nat, lens: FlowLens)
    requires AllHeld(tv, Sound(lens)) && (Rejected(p) || PacketIn(p, lens(KeyOf(p.hdr))))
    ensures var s := TraceAccept(tv, p, t);
      && AllHeld(s.view, Sound(lens))
      && Held(s.view, PartsOf) == Held(tv, PartsOf) + (if s.ret == -1 then multiset{} else multiset{p})
  {
    if !Rejected(p) {
      var key, x := KeyOf(p.hdr), FreshTraced(p, t);
      var c := Lookup(tv, key);
      var d := TraceDecide(c, p);
      LookupAll(tv, key, Sound(lens));
      FreshSound(p, t, lens(key));
      DecideFolds(c, p, t);
      if d.MergeAt? {
        assert Sound(lens)(key, c[d.at]);
        FoldSound(key, c[d.at], x, lens(key));
        FoldParts(key, c[d.at], x);
      }
      StoreAll(tv, key, x, d, Sound(lens));
      assert PartsOf(key, x) == multiset{p};
      StoreHeld(tv, key, x, d, PartsOf);
    }
  }

  // ----- Flushing

  function TraceFuse(c: seq<TracedItem>): (r: seq<TracedItem>)
    requires c != []
    ensures 0 < |r| <= |c|
    decreases |c|
  {
    if |c| > 1 && Foldable(c[0].item, c[1].item) then TraceFuse([Fold(c[0], c[1])] + c[2..]) else c
  }

  function TraceDrain(c: seq<TracedItem>, ts: nat, room: nat): Drain<TracedItem>
    decreases |c|
  {
    if c == [] || room == 0 || c[0].item.startTime > ts then Drain([], c)
    else
      var m := TraceFuse(c);
      var d := TraceDrain(m[1..], ts, room - 1);
      Drain([m[0]] + d.out, d.rest)
  }

  function TraceDrainBy(ts: nat): Drainer<TracedItem> {
    (c: seq<TracedItem>, room: nat) => TraceDrain(c, ts, room)
  }

  lemma {:induction false} FuseForgets(c: seq<TracedItem>)
    requires c != []
    ensures Fuse(ItemsOf(c)) == ItemsOf(TraceFuse(c))
    decreases |c|
  {
    if |c| > 1 && Foldable(c[0].item, c[1].item) {
      var d := [Fold(c[0], c[1])] + c[2..];
      assert ItemsOf(d) == [FoldItem(c[0].item, c[1].item)] + ItemsOf(c)[2..];
      FuseForgets(d);
    }
  }

  lemma {:induction false} DrainForgets(c: seq<TracedItem>, ts: nat, room: nat)
    ensures DrainChain(ItemsOf(c), ts, room) == MapDrain(TraceDrain(c, ts, room), ItemOf())
    decreases |c|
  {
    if c != [] && room > 0 && c[0].item.startTime <= ts {
      var m := TraceFuse(c);
      DrainForgets(m[1..], ts, room - 1);
      HeadForgets(c, ts, room);
    } else {
      assert ItemsOf<UdpItem>([]) == [];
    }
  }

  lemma HeadForgets(c: seq<TracedItem>, ts: nat, room: nat)
    requires c != [] && room > 0 && c[0].item.startTime <= ts
    requires var rest := TraceFuse(c)[1..];
      DrainChain(ItemsOf(rest), ts, room - 1) == MapDrain(TraceDrain(rest, ts, room - 1), ItemOf())
    ensures DrainChain(ItemsOf(c), ts, room) == MapDrain(TraceDrain(c, ts, room), ItemOf())
  {
    var m, items := TraceFuse(c), ItemsOf(c);
    var d := TraceDrain(m[1..], ts, room - 1);
    FuseForgets(c);
    assert Fuse(items)[1..] == ItemsOf(m[1..]);
    HeadOut(items, ts, room);
    assert TraceDrain(c, ts, room) == Drain([m[0]] + d.out, d.rest);
    MapHead(m[0], d);
  }

  lemma HeadOut(c: seq<UdpItem>, ts: nat, room: nat)
    requires c != [] && room > 0 && c[0].startTime <= ts
    ensures var d := DrainChain(Fuse(c)[1..], ts, room - 1);
      DrainChain(c, ts, room) == Drain([Fuse(c)[0]] + d.out, d.rest)
  {}

  lemma DrainsForget(ts: nat)
    ensures forall c: seq<TracedItem> :: Mapped(c, TraceDrainBy(ts), DrainBy(ts), ItemOf())
  {
    forall c: seq<TracedItem> ensures Mapped(c, TraceDrainBy(ts), DrainBy(ts), ItemOf()) {
      forall r: nat ensures DrainBy(ts)(ItemsOf(c), r) == MapDrain(TraceDrainBy(ts)(c, r), ItemOf()) {
        DrainForgets(c, ts, r);
      }
    }
  }

  lemma {:induction false} FuseSound(k: UdpKey, c: seq<TracedItem>, lens: FlowLens)
    requires c != [] && All(k, c, Sound(lens))
    ensures All(k, TraceFuse(c), Sound(lens))
    ensures InChain(k, TraceFuse(c), PartsOf) == InChain(k, c, PartsOf)
    decreases |c|
  {
    if |c| > 1 && Foldable(c[0].item, c[1].item) {
      assert Sound(lens)(k, c[0]) && Sound(lens)(k, c[1]);
      FoldSound(k, c[0], c[1], lens(k));
      FoldParts(k, c[0], c[1]);
      MergedHead(k, c, Fold(c[0], c[1]), PartsOf);
      FuseSound(k, [Fold(c[0], c[1])] + c[2..], lens);
    }
  }

  lemma {:induction false} DrainSound(k: UdpKey, c: seq<TracedItem>, ts: nat, room: nat, lens: FlowLens)
    requires All(k, c, Sound(lens))
    ensures Drained(k, c, TraceDrain(c, ts, room), Sound(lens), PartsOf)
    decreases |c|
  {
    if c != [] && room > 0 && c[0].item.startTime <= ts {
      var m := TraceFuse(c);
      FuseSound(k, c, lens);
      DrainSound(k, m[1..], ts, room - 1, lens);
      var r := TraceDrain(m[1..], ts, room - 1);
      ConservesMore(k, c, m, r, PartsOf);
      AllMore(k, m, r.out, Sound(lens));
    }
  }

  lemma DrainsSound(ts: nat, lens: FlowLens)
    ensures forall k, c, n: nat :: All(k, c, Sound(lens)) ==>
      Drained(k, c, TraceDrainBy(ts)(c, n), Sound(lens), PartsOf)
  {
    forall k, c, n: nat | All(k, c, Sound(lens)) ensures Drained(k, c, TraceDrainBy(ts)(c, n), Sound(lens), PartsOf) {
      DrainSound(k, c, ts, n, lens);
    }
  }

  // ----- Runs

  function TraceNext(tr: UdpTrace, e: Event): UdpTrace {
    match e
    case Packet(p, t) => tr.(view := TraceAccept(tr.view, p, t).view)
    case Timeout(ts, room) =>
      var r := Flush(tr.view, room, TraceDrainBy(ts));
      Trace(r.view, tr.out + r.out)
  }

  function TraceAll(tr: UdpTrace, es: seq<Event>): UdpTrace
    decreases |es|
  {
    if es == [] then tr else TraceAll(TraceNext(tr, es[0]), es[1..])
  }

  /** The trace explains the session: its items are those of the table and what merging
      their fragments gives, its output gives the packets put out in order, and each
      fragment taken is in exactly one item or one packet put out. */
  ghost predicate Explains(tr: UdpTrace, s: Session, lens: FlowLens) {
    && s.view == Forget(tr.view) && s.out == Emitted(tr.out, FinishItem(Finish))
    && AllHeld(tr.view, Sound(lens)) && AllOut(tr.out, Sound(lens))
    && multiset(s.taken) == Held(tr.view, PartsOf) + InOut(tr.out, PartsOf)
  }

  lemma PacketExplained(tr: UdpTrace, s: Session, p: Mbuf, t: nat, lens: FlowLens)
    requires Explains(tr, s, lens) && EventOk(Packet(p, t), lens)
    ensures Explains(TraceNext(tr, Packet(p, t)), Next(s, Packet(p, t)), lens)
  {
    AcceptForgets(tr.view, p, t);
    AcceptSound(tr.view, p, t, lens);
    Take(multiset(s.taken), Held(tr.view, PartsOf), InOut(tr.out, PartsOf), multiset{p});
    assert multiset(s.taken + [p]) == multiset(s.taken) + multiset{p};
  }

  lemma TimeoutExplained(tr: UdpTrace, s: Session, ts: nat, room: nat, lens: FlowLens)
    requires Explains(tr, s, lens)
    ensures Explains(TraceNext(tr, Timeout(ts, room)), Next(s, Timeout(ts, room)), lens)
  {
    var r := Flush(tr.view, room, TraceDrainBy(ts));
    DrainsForget(ts);
    FlushForgets(tr.view, room, TraceDrainBy(ts), DrainBy(ts), Finish);
    DrainsSound(ts, lens);
    FlushSound(tr.view, room, TraceDrainBy(ts), Sound(lens));
    EmittedConcat(tr.out, r.out, FinishItem(Finish));
    AllOutConcat(tr.out, r.out, Sound(lens));
    InOutConcat(tr.out, r.out, PartsOf);
    Move(multiset(s.taken), Held(tr.view, PartsOf), InOut(tr.out, PartsOf), InOut(r.out, PartsOf),
         Held(r.view, PartsOf));
  }

  /** In every run each fragment taken is in exactly one item of the table or one packet
      put out, and each of these is what merging its fragments gives: of one flow, one
      starting where the other ends, with their payload and buffers in that order. */
  lemma {:induction false} RunBuilt(tr: UdpTrace, s: Session, es: seq<Event>, lens: FlowLens)
    requires Explains(tr, s, lens) && forall i :: 0 <= i < |es| ==> EventOk(es[i], lens)
    ensures Explains(TraceAll(tr, es), RunAll(s, es), lens)
    decreases |es|
  {
    if es != [] {
      match es[0] {
        case Packet(p, t) => PacketExplained(tr, s, p, t, lens);
        case Timeout(ts, room) => TimeoutExplained(tr, s, ts, room, lens);
      }
      RunBuilt(TraceNext(tr, es[0]), Next(s, es[0]), es[1..], lens);
    }
  }

  /** A packet put out: a fragment alone comes out as it went in, and a merged one carries
      the payload of its fragments at their offsets, More Fragments exactly if all of them
      have it, and its true byte counts in its length fields. */
  lemma PutOut(tr: UdpTrace, s: Session, lens: FlowLens, i: nat)
    requires Explains(tr, s, lens) && i < |tr.out|
    ensures |s.out| == |tr.out|
    ensures var parts := tr.out[i].item.parts; var m := s.out[i];
      && OfFlow(tr.out[i].key, parts) && m.segs == JoinSegs(parts) && (|parts| == 1 ==> m == parts[0])
      && (lens(tr.out[i].key).Some? ==>
        && Contiguous(parts) && parts != [] && FragOffset(m.hdr) == FragOffset(parts[0].hdr)
        && Bytes(m) == JoinBytes(parts) && (m.hdr.mf <==> NoneLast(parts)) && (|parts| > 1 ==> HeaderTrue(m)))
  {
    var k, x := tr.out[i].key, tr.out[i].item;
    assert Sound(lens)(k, x);
    assert s.out[i] == Finish(x.item);
    if lens(k).Some? {
      FinishOk(k, x.item, lens(k).value);
    }
  }

  lemma NewExplained(n: nat, lens: FlowLens)
    ensures Explains(NewTrace(n), NewTable(n), lens)
  {
    EmptyHolds(NewTrace<UdpKey, UdpItem>(n).view, PartsOf);
  }

  /** So it is in every run of a new table. */
  lemma BuiltFromNew(n: nat, es: seq<Event>, lens: FlowLens)
    requires forall i :: 0 <= i < |es| ==> EventOk(es[i], lens)
    ensures Explains(TraceAll(NewTrace(n), es), RunAll(NewTable(n), es), lens)
  {
    NewExplained(n, lens);
    RunBuilt(NewTrace(n), NewTable(n), es, lens);
  }
}
