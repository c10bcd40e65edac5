/**
  Tables whose items carry more than another table's: forgetting what is extra commutes
  with everything a table does.
 */
module FlowMap {
  import opened FlowTable

  function MapChain<I, J>(c: seq<I>, g: I -> J): seq<J> {
    seq(|c|, i requires 0 <= i < |c| => g(c[i]))
  }

  function MapFlow<K, I, J>(f: Flow<K, I>, g: I -> J): Flow<K, J> {
    if f.Flow? then Flow(f.key, MapChain(f.chain, g)) else NoFlow
  }

  function MapView<K, I, J>(v: seq<Flow<K, I>>, g: I -> J): (r: seq<Flow<K, J>>)
    ensures |r| == |v|
  {
    seq(|v|, i requires 0 <= i < |v| => MapFlow(v[i], g))
  }

  function MapDecision<I, J>(d: Decision<I>, g: I -> J): Decision<J> {
    match d
    case MergeAt(k, m) => MergeAt(k, g(m))
    case InsertAt(k) => InsertAt(k)
  }

  function MapOut<K, I, J>(out: seq<Tagged<K, I>>, g: I -> J): seq<Tagged<K, J>> {
    seq(|out|, i requires 0 <= i < |out| => Tagged(out[i].key, g(out[i].item)))
  }

  function MapDrain<I, J>(d: Drain<I>, g: I -> J): Drain<J> { Drain(MapChain(d.out, g), MapChain(d.rest, g)) }

  // ----- Storing

  lemma {:induction false} MapFinds<K, I, J>(v: seq<Flow<K, I>>, g: I -> J, key: K)
    ensures Find(MapView(v, g), key) == Find(v, key)
    ensures FirstFree(MapView(v, g)) == FirstFree(v)
    ensures Total(MapView(v, g)) == Total(v)
  {
    if v != [] {
      assert MapView(v, g)[1..] == MapView(v[1..], g);
      MapFinds(v[1..], g, key);
    }
  }

  lemma MapLookup<K, I, J>(v: seq<Flow<K, I>>, g: I -> J, key: K)
    ensures Lookup(MapView(v, g), key) == MapChain(Lookup(v, key), g)
  {
    MapFinds(v, g, key);
  }

  lemma MapSlot<K, I, J>(v: seq<Flow<K, I>>, i: nat, f: Flow<K, I>, g: I -> J)
    requires i < |v|
    ensures MapView(v[i := f], g) == MapView(v, g)[i := MapFlow(f, g)]
  {}

  lemma MapInsert<I, J>(c: seq<I>, at: nat, x: I, g: I -> J)
    requires at <= |c|
    ensures MapChain(Insert(c, at, x), g) == Insert(MapChain(c, g), at, g(x))
  {}

  lemma MapUpdate<I, J>(c: seq<I>, at: nat, x: I, g: I -> J)
    requires at < |c|
    ensures MapChain(c[at := x], g) == MapChain(c, g)[at := g(x)]
  {}

  /** A reassembly call. */
  lemma MapStore<K, I, J>(v: seq<Flow<K, I>>, key: K, item: I, d: Decision<I>, g: I -> J)
    requires Applies(d, |Lookup(v, key)|) && Applies(MapDecision(d, g), |Lookup(MapView(v, g), key)|)
    ensures var s := Store(v, key, item, d);
      Store(MapView(v, g), key, g(item), MapDecision(d, g)) == Stored(MapView(s.view, g), s.ret)
  {
    var i, j, s := Find(v, key), FirstFree(v), Store(v, key, item, d);
    MapFinds(v, g, key);
    if i == |v| {
      if s.ret == 0 {
        MapSlot(v, j, s.view[j], g);
        assert MapChain([item], g) == [g(item)];
      }
    } else if s.ret != -1 {
      MapSlot(v, i, s.view[i], g);
      match d
      case MergeAt(at, m) => MapUpdate(v[i].chain, at, m, g);
      case InsertAt(at) => MapInsert(v[i].chain, at, item, g);
    }
  }

  // ----- Flushing

  /** `to` drains a mapped chain as `drain` does the chain. */
  ghost predicate Mapped<I, J>(c: seq<I>, drain: (seq<I>, nat) -> Drain<I>, to: (seq<J>, nat) -> Drain<J>, g: I -> J) {
    forall r: nat :: to(MapChain(c, g), r) == MapDrain(drain(c, r), g)
  }

  lemma MapMore<K, I, J>(k: K, d: Drain<I>, r: Flushed<K, I>, g: I -> J)
    ensures MapOut(Tag(k, d.out) + r.out, g) == Tag(k, MapDrain(d, g).out) + MapOut(r.out, g)
    ensures MapView([SlotFor(k, d.rest)] + r.view, g) == [SlotFor(k, MapDrain(d, g).rest)] + MapView(r.view, g)
  {}

  lemma {:induction false} MapFlush<K, I, J>(v: seq<Flow<K, I>>, room: nat, drain: (seq<I>, nat) -> Drain<I>,
                                             to: (seq<J>, nat) -> Drain<J>, g: I -> J)
    requires forall c :: Mapped(c, drain, to, g)
    ensures var r := Flush(v, room, drain);
      Flush(MapView(v, g), room, to) == Flushed(MapOut(r.out, g), MapView(r.view, g))
  {
    if v != [] && room > 0 {
      var w := MapView(v, g);
      assert w[1..] == MapView(v[1..], g);
      if v[0].NoFlow? {
        MapFlush(v[1..], room, drain, to, g);
        MapNone(Flush(v[1..], room, drain).view, g);
      } else {
        var d := drain(v[0].chain, room);
        assert Mapped(v[0].chain, drain, to, g);
        assert to(w[0].chain, room) == MapDrain(d, g);
        MapFlush(v[1..], Less(room, |d.out|), drain, to, g);
        MapMore(v[0].key, d, Flush(v[1..], Less(room, |d.out|), drain), g);
      }
    }
  }

  lemma MapNone<K, I, J>(v: seq<Flow<K, I>>, g: I -> J)
    ensures MapView([NoFlow] + v, g) == [NoFlow] + MapView(v, g)
  {}
}
