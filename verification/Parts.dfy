/**
  Which packets made which item: a table run beside one that also keeps, for each item
  and for each packet put out, the packets it was merged from.
 */
module Parts {
  import opened Packets
  import opened FlowTable
  import opened FlowMap
  import opened FlushLoop

  datatype Traced<I> = Traced(item: I, parts: seq<Mbuf>)

  /** The table, and what it put out. */
  datatype Trace<K, I> = Trace(view: seq<Flow<K, Traced<I>>>, out: seq<Tagged<K, Traced<I>>>)

  function NewTrace<K, I>(n: nat): Trace<K, I> { Trace(seq(n, _ => NoFlow), []) }

  function ItemOf<I>(): Traced<I> -> I {
    (x: Traced<I>) => x.item
  }

  /** The items of a chain. */
  function ItemsOf<I>(c: seq<Traced<I>>): (r: seq<I>)
    ensures |r| == |c| && forall i :: 0 <= i < |c| ==> r[i] == c[i].item
  {
    MapChain(c, ItemOf())
  }

  /** The table without the packets. */
  function Forget<K, I>(tv: seq<Flow<K, Traced<I>>>): seq<Flow<K, I>> { MapView(tv, ItemOf()) }

  ghost function PartsOf<K, I>(k: K, x: Traced<I>): multiset<Mbuf> { multiset(x.parts) }

  /** The packets of two items that were merged, in the order of the merge. */
  function Joined(parts: seq<Mbuf>, more: seq<Mbuf>, cmp: int): seq<Mbuf> {
    if cmp > 0 then parts + more else more + parts
  }

  /** The buffers of the packets, in order. */
  function JoinSegs(parts: seq<Mbuf>): seq<nat> {
    if parts == [] then [] else parts[0].segs + JoinSegs(parts[1..])
  }

  lemma {:induction false} JoinSegsConcat(a: seq<Mbuf>, b: seq<Mbuf>)
    ensures JoinSegs(a + b) == JoinSegs(a) + JoinSegs(b)
  {
    if a == [] {
      assert a + b == b;
    } else {
      assert (a + b)[1..] == a[1..] + b;
      JoinSegsConcat(a[1..], b);
    }
  }

  lemma LookupAll<K, I>(v: seq<Flow<K, I>>, key: K, ok: (K, I) -> bool)
    requires AllHeld(v, ok)
    ensures All(key, Lookup(v, key), ok)
  {}

  // ----- Flushing

  lemma MapHead<I>(x: Traced<I>, d: Drain<Traced<I>>)
    ensures MapDrain(Drain([x] + d.out, d.rest), ItemOf()) ==
      Drain([x.item] + MapDrain(d, ItemOf()).out, MapDrain(d, ItemOf()).rest)
  {
    assert ItemsOf([x] + d.out) == [x.item] + ItemsOf(d.out);
  }

  function FinishItem<I>(finish: I -> Mbuf): Traced<I> -> Mbuf {
    (x: Traced<I>) => finish(x.item)
  }

  lemma EmittedForgets<K, I>(out: seq<Tagged<K, Traced<I>>>, finish: I -> Mbuf)
    ensures Emitted(MapOut(out, ItemOf()), finish) == Emitted(out, FinishItem(finish))
  {
    var a, b := Emitted(MapOut(out, ItemOf()), finish), Emitted(out, FinishItem(finish));
    forall i | 0 <= i < |out| ensures a[i] == b[i] {
      assert a[i] == finish(out[i].item.item) == b[i];
    }
  }

  lemma EmittedConcat<K, I>(a: seq<Tagged<K, I>>, b: seq<Tagged<K, I>>, finish: I -> Mbuf)
    ensures Emitted(a + b, finish) == Emitted(a, finish) + Emitted(b, finish)
  {}

  /** Forgetting the packets, a flush puts out what it does without them. */
  lemma FlushForgets<K, I>(tv: seq<Flow<K, Traced<I>>>, room: nat, drain: Drainer<Traced<I>>, to: Drainer<I>,
                           finish: I -> Mbuf)
    requires forall c :: Mapped(c, drain, to, ItemOf())
    ensures var r := Flush(Forget(tv), room, to); var tr := Flush(tv, room, drain);
      r.view == Forget(tr.view) && Emitted(r.out, finish) == Emitted(tr.out, FinishItem(finish))
  {
    MapFlush(tv, room, drain, to, ItemOf());
    EmittedForgets(Flush(tv, room, drain).out, finish);
  }

  lemma FlushSound<K, I>(tv: seq<Flow<K, Traced<I>>>, room: nat, drain: Drainer<Traced<I>>, ok: (K, Traced<I>) -> bool)
    requires AllHeld(tv, ok)
    requires forall k, c, n: nat :: All(k, c, ok) ==> Drained(k, c, drain(c, n), ok, PartsOf)
    ensures var r := Flush(tv, room, drain);
      && AllHeld(r.view, ok) && AllOut(r.out, ok)
      && Held(tv, PartsOf) == InOut(r.out, PartsOf) + Held(r.view, PartsOf)
  {
    forall i, n: nat | 0 <= i < |tv| && tv[i].Flow?
      ensures Drained(tv[i].key, tv[i].chain, drain(tv[i].chain, n), ok, PartsOf)
    {
      assert All(tv[i].key, tv[i].chain, ok);
    }
    FlushAll(tv, room, drain, ok);
    FlushHeld(tv, room, drain, PartsOf);
  }
}
