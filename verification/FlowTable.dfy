/**
  The abstract state of a reassembly table: one slot per entry of the flow
  array, each free or holding a key and the items chained for it, in chain
  order. Which index of the item array an item occupies is left to `ItemTable`.
 */
module FlowTable {
  datatype Flow<K, I> = NoFlow | Flow(key: K, chain: seq<I>)

  function ChainOf<K, I>(f: Flow<K, I>): seq<I> {
    if f.Flow? then f.chain else []
  }

  /** The number of stored items. */
  function Total<K, I>(v: seq<Flow<K, I>>): nat {
    if v == [] then 0 else |ChainOf(v[0])| + Total(v[1..])
  }

  /** The number of live flows. */
  function Live<K, I>(v: seq<Flow<K, I>>): nat {
    if v == [] then 0 else (if v[0].Flow? then 1 else 0) + Live(v[1..])
  }

  ghost predicate NonEmpty<K, I>(v: seq<Flow<K, I>>) {
    forall i :: 0 <= i < |v| && v[i].Flow? ==> v[i].chain != []
  }

  ghost predicate Apart<K, I>(v: seq<Flow<K, I>>, i: nat, j: nat)
    requires i < j < |v|
  {
    v[i].Flow? && v[j].Flow? ==> v[i].key != v[j].key
  }

  ghost predicate DistinctKeys<K, I>(v: seq<Flow<K, I>>) {
    forall i, j :: 0 <= i < j < |v| ==> Apart(v, i, j)
  }

  /** The table invariant. Both arrays of a table have the same size. */
  ghost predicate Wf<K, I>(v: seq<Flow<K, I>>) {
    NonEmpty(v) && DistinctKeys(v) && Total(v) <= |v|
  }

  predicate Owns<K(==), I>(f: Flow<K, I>, key: K) {
    f.Flow? && f.key == key
  }

  /** The slot of `key`, or `|v|` when no live flow has that key. */
  function Find<K(==), I>(v: seq<Flow<K, I>>, key: K): (i: nat)
    ensures i <= |v|
    ensures i < |v| ==> Owns(v[i], key)
    ensures forall j :: 0 <= j < i ==> !Owns(v[j], key)
  {
    if v == [] || Owns(v[0], key) then 0 else Find(v[1..], key) + 1
  }

  lemma {:induction false} FindUpdated<K, I>(v: seq<Flow<K, I>>, i: nat, v': seq<Flow<K, I>>, key: K)
    requires i < |v| == |v'| && v' == v[i := v'[i]] && Owns(v'[i], key)
    requires Find(v, key) == i || Find(v, key) == |v|
    ensures Find(v', key) == i
  {}

  function FirstFree<K, I>(v: seq<Flow<K, I>>): (i: nat)
    ensures i <= |v|
    ensures i < |v| ==> v[i].NoFlow?
    ensures forall j :: 0 <= j < i ==> v[j].Flow?
  {
    if v == [] || v[0].NoFlow? then 0 else FirstFree(v[1..]) + 1
  }

  lemma {:induction false} TotalSlot<K, I>(v: seq<Flow<K, I>>, i: nat, f: Flow<K, I>)
    requires i < |v|
    ensures Total(v[i := f]) == Total(v) - |ChainOf(v[i])| + |ChainOf(f)|
    ensures Live(v[i := f]) == Live(v) - (if v[i].Flow? then 1 else 0) + (if f.Flow? then 1 else 0)
    ensures |ChainOf(v[i])| <= Total(v)
    ensures v[i].Flow? ==> 1 <= Live(v)
  {
    if i > 0 {
      assert v[i := f][1..] == v[1..][i - 1 := f];
      TotalSlot(v[1..], i - 1, f);
    } else {
      assert v[i := f][1..] == v[1..];
    }
  }

  /** Every live flow owns at least one item. */
  lemma {:induction false} LiveWithinTotal<K, I>(v: seq<Flow<K, I>>)
    requires NonEmpty(v)
    ensures Live(v) <= Total(v)
    ensures Live(v) <= |v|
  {
    if v != [] {
      LiveWithinTotal(v[1..]);
    }
  }

  lemma {:induction false} LiveCounts<K, I>(v: seq<Flow<K, I>>)
    ensures Live(v) <= |v|
    ensures Live(v) == |v| <==> FirstFree(v) == |v|
    ensures Live(v) == 0 <==> forall i :: 0 <= i < |v| ==> v[i].NoFlow?
  {
    if v != [] {
      LiveCounts(v[1..]);
      assert forall i :: 1 <= i < |v| ==> v[i] == v[1..][i - 1];
    }
  }

  /** As long as an item slot is free, so is a flow slot: `insert_new_flow` cannot
      fail after `insert_new_item` succeeded, and nothing has to be rolled back. */
  lemma NoRollBack<K, I>(v: seq<Flow<K, I>>)
    requires NonEmpty(v) && Total(v) < |v|
    ensures FirstFree(v) < |v|
  {
    LiveWithinTotal(v);
    LiveCounts(v);
  }

  // ----- Storing a packet

  /** What the scan of a chain decides: fold the packet into one item, or insert
      it as a new item at a position. */
  datatype Decision<I> = MergeAt(at: nat, merged: I) | InsertAt(at: nat)

  predicate Applies<I>(d: Decision<I>, len: nat) {
    match d
    case MergeAt(k, _) => k < len
    case InsertAt(k) => k <= len
  }

  datatype Stored<K, I> = Stored(view: seq<Flow<K, I>>, ret: int)

  /** The chain of `key`, empty if it has no flow. */
  function Lookup<K(==), I>(v: seq<Flow<K, I>>, key: K): seq<I> {
    var i := Find(v, key);
    if i < |v| then v[i].chain else []
  }

  function Insert<I>(c: seq<I>, at: nat, x: I): seq<I>
    requires at <= |c|
  {
    c[..at] + [x] + c[at..]
  }

  /** The effect and the result of a reassembly call on a packet of flow `key`:
      1 if it was merged, 0 if it was stored, -1 if there was no room. */
  function Store<K(==), I>(v: seq<Flow<K, I>>, key: K, item: I, d: Decision<I>): Stored<K, I>
    requires Applies(d, |Lookup(v, key)|)
  {
    var i := Find(v, key);
    if i == |v| then
      var j := FirstFree(v);
      if Total(v) >= |v| || j == |v| then Stored(v, -1)
      else Stored(v[j := Flow(key, [item])], 0)
    else if d.MergeAt? then
      Stored(v[i := Flow(key, v[i].chain[d.at := d.merged])], 1)
    else if Total(v) >= |v| then Stored(v, -1)
    else Stored(v[i := Flow(key, Insert(v[i].chain, d.at, item))], 0)
  }

  /** Structure and accounting of one call. */
  lemma StoreKeepsWf<K, I>(v: seq<Flow<K, I>>, key: K, item: I, d: Decision<I>)
    requires Wf(v) && Applies(d, |Lookup(v, key)|)
    ensures var s := Store(v, key, item, d);
      && Wf(s.view) && |s.view| == |v|
      && (s.ret == -1 || s.ret == 0 || s.ret == 1)
      && Total(s.view) == Total(v) + (if s.ret == 0 then 1 else 0)
      && (s.ret == -1 ==> s.view == v && Total(v) == |v|)
      && (s.ret == 1 ==> Lookup(v, key) != [])
  {
    var i, j := Find(v, key), FirstFree(v);
    var v' := Store(v, key, item, d).view;
    if i == |v| {
      if Total(v) < |v| {
        NoRollBack(v);
        TotalSlot(v, j, Flow(key, [item]));
      }
    } else {
      TotalSlot(v, i, v'[i]);
    }
    forall a, b | 0 <= a < b < |v'| ensures Apart(v', a, b) {
      assert Apart(v, a, b);
    }
  }

  // ----- What a table holds

  ghost function InChain<K, I, U>(k: K, c: seq<I>, f: (K, I) -> multiset<U>): multiset<U> {
    if c == [] then multiset{} else f(k, c[0]) + InChain(k, c[1..], f)
  }

  ghost function InSlot<K, I, U>(s: Flow<K, I>, f: (K, I) -> multiset<U>): multiset<U> {
    if s.Flow? then InChain(s.key, s.chain, f) else multiset{}
  }

  /** The sum of `f` over all stored items. */
  ghost function Held<K, I, U>(v: seq<Flow<K, I>>, f: (K, I) -> multiset<U>): multiset<U> {
    if v == [] then multiset{} else InSlot(v[0], f) + Held(v[1..], f)
  }

  lemma {:induction false} EmptyHolds<K, I, U>(v: seq<Flow<K, I>>, f: (K, I) -> multiset<U>)
    requires forall i :: 0 <= i < |v| ==> v[i].NoFlow?
    ensures Held(v, f) == multiset{} && Total(v) == 0
  {
    if v != [] {
      EmptyHolds(v[1..], f);
    }
  }

  lemma {:induction false} InChainConcat<K, I, U>(k: K, a: seq<I>, b: seq<I>, f: (K, I) -> multiset<U>)
    ensures InChain(k, a + b, f) == InChain(k, a, f) + InChain(k, b, f)
  {
    if a == [] {
      assert a + b == b;
    } else {
      assert (a + b)[1..] == a[1..] + b;
      InChainConcat(k, a[1..], b, f);
    }
  }

  lemma {:induction false} InChainInsert<K, I, U>(k: K, c: seq<I>, at: nat, x: I, f: (K, I) -> multiset<U>)
    requires at <= |c|
    ensures InChain(k, Insert(c, at, x), f) == InChain(k, c, f) + f(k, x)
    decreases at
  {
    var c' := Insert(c, at, x);
    if at == 0 {
      assert c'[0] == x && c'[1..] == c;
    } else {
      assert c'[0] == c[0] && c'[1..] == Insert(c[1..], at - 1, x);
      InChainInsert(k, c[1..], at - 1, x, f);
    }
  }

  lemma InChainAt<K, I, U>(k: K, c: seq<I>, at: nat, f: (K, I) -> multiset<U>)
    requires at < |c|
    ensures InChain(k, c, f) == InChain(k, c[..at] + c[at + 1..], f) + f(k, c[at])
  {
    var rest := c[..at] + c[at + 1..];
    assert Insert(rest, at, c[at]) == c;
    InChainInsert(k, rest, at, c[at], f);
  }

  lemma MergeInChain<K, I, U>(k: K, c: seq<I>, at: nat, merged: I, x: I, f: (K, I) -> multiset<U>)
    requires at < |c|
    requires f(k, merged) == f(k, c[at]) + f(k, x)
    ensures InChain(k, c[at := merged], f) == InChain(k, c, f) + f(k, x)
  {
    var c' := c[at := merged];
    InChainAt(k, c, at, f);
    InChainAt(k, c', at, f);
    assert c'[..at] + c'[at + 1..] == c[..at] + c[at + 1..];
  }

  /** Taking slot `i` out of the sum. */
  lemma {:induction false} HeldSlot<K, I, U>(v: seq<Flow<K, I>>, i: nat, f: (K, I) -> multiset<U>)
    requires i < |v|
    ensures Held(v, f) == InSlot(v[i], f) + Held(v[i := NoFlow], f)
  {
    var v' := v[i := NoFlow];
    if i > 0 {
      calc {
        Held(v, f);
        { HeldSlot(v[1..], i - 1, f); }
        InSlot(v[0], f) + (InSlot(v[i], f) + Held(v[1..][i - 1 := NoFlow], f));
        { assert v'[1..] == v[1..][i - 1 := NoFlow]; }
        InSlot(v[i], f) + (InSlot(v'[0], f) + Held(v'[1..], f));
      }
    } else {
      assert v'[1..] == v[1..];
    }
  }

  lemma HeldUpdate<K, I, U>(v: seq<Flow<K, I>>, i: nat, s: Flow<K, I>, f: (K, I) -> multiset<U>)
    requires i < |v|
    ensures Held(v[i := s], f) == InSlot(s, f) + Held(v[i := NoFlow], f)
  {
    var w := v[i := s];
    assert w[i] == s;
    assert w[i := NoFlow] == v[i := NoFlow];
    HeldSlot(w, i, f);
  }

  lemma HeldGrows<K, I, U>(v: seq<Flow<K, I>>, i: nat, s: Flow<K, I>, f: (K, I) -> multiset<U>, x: multiset<U>)
    requires i < |v|
    requires InSlot(s, f) == InSlot(v[i], f) + x
    ensures Held(v[i := s], f) == Held(v, f) + x
  {
    var a, rest := InSlot(v[i], f), Held(v[i := NoFlow], f);
    HeldSlot(v, i, f);
    HeldUpdate(v, i, s, f);
    assert (a + x) + rest == (a + rest) + x;
  }

  /** Conservation of one call, for any additive measure `f` that a merge keeps. */
  lemma StoreHeld<K, I, U>(v: seq<Flow<K, I>>, key: K, item: I, d: Decision<I>, f: (K, I) -> multiset<U>)
    requires Applies(d, |Lookup(v, key)|)
    requires d.MergeAt? ==> f(key, d.merged) == f(key, Lookup(v, key)[d.at]) + f(key, item)
    ensures var s := Store(v, key, item, d);
      Held(s.view, f) == Held(v, f) + (if s.ret == -1 then multiset{} else f(key, item))
  {
    var i, j := Find(v, key), FirstFree(v);
    var s := Store(v, key, item, d);
    if s.ret != -1 {
      if i == |v| {
        assert InChain(key, [item], f) == f(key, item);
        HeldGrows(v, j, s.view[j], f, f(key, item));
      } else {
        if d.MergeAt? {
          MergeInChain(key, v[i].chain, d.at, d.merged, item, f);
        } else {
          InChainInsert(key, v[i].chain, d.at, item, f);
        }
        HeldGrows(v, i, s.view[i], f, f(key, item));
      }
    }
  }

  ghost predicate All<K, I>(k: K, c: seq<I>, p: (K, I) -> bool) {
    forall i :: 0 <= i < |c| ==> p(k, c[i])
  }

  lemma AllParts<K, I>(k: K, c: seq<I>, a: seq<I>, b: seq<I>, p: (K, I) -> bool)
    requires c == a + b
    ensures All(k, c, p) ==> All(k, a, p) && All(k, b, p)
  {
    assert forall i :: 0 <= i < |a| ==> a[i] == c[i];
    assert forall i :: 0 <= i < |b| ==> b[i] == c[|a| + i];
  }

  ghost predicate AllHeld<K, I>(v: seq<Flow<K, I>>, p: (K, I) -> bool) {
    forall i :: 0 <= i < |v| && v[i].Flow? ==> All(v[i].key, v[i].chain, p)
  }

  /** What holds of all stored items, and of the new or merged one, holds afterwards. */
  lemma StoreAll<K, I>(v: seq<Flow<K, I>>, key: K, item: I, d: Decision<I>, p: (K, I) -> bool)
    requires Applies(d, |Lookup(v, key)|) && AllHeld(v, p) && p(key, item) && (d.MergeAt? ==> p(key, d.merged))
    ensures AllHeld(Store(v, key, item, d).view, p)
  {
    var i, v' := Find(v, key), Store(v, key, item, d).view;
    forall j | 0 <= j < |v'| && v'[j].Flow? ensures All(v'[j].key, v'[j].chain, p) {
      if v'[j] == v[j] {
        assert All(v[j].key, v[j].chain, p);
      } else if i < |v| {
        assert All(v[i].key, v[i].chain, p);
      }
    }
  }

  // ----- Draining a table

  datatype Tagged<K, I> = Tagged(key: K, item: I)
  datatype Drain<I> = Drain(out: seq<I>, rest: seq<I>)
  datatype Flushed<K, I> = Flushed(out: seq<Tagged<K, I>>, view: seq<Flow<K, I>>)

  function Tag<K, I>(k: K, c: seq<I>): seq<Tagged<K, I>> {
    seq(|c|, i requires 0 <= i < |c| => Tagged(k, c[i]))
  }

  function SlotFor<K, I>(k: K, c: seq<I>): Flow<K, I> {
    if c == [] then NoFlow else Flow(k, c)
  }

  function Less(a: nat, b: nat): nat {
    if a >= b then a - b else 0
  }

  /** Walk the flow slots in order, draining each chain with `drain`, until `room`
      packets have been put out. */
  function Flush<K, I>(v: seq<Flow<K, I>>, room: nat, drain: (seq<I>, nat) -> Drain<I>): Flushed<K, I> {
    if v == [] || room == 0 then Flushed([], v)
    else if v[0].NoFlow? then
      var r := Flush(v[1..], room, drain);
      Flushed(r.out, [NoFlow] + r.view)
    else
      var d := drain(v[0].chain, room);
      var r := Flush(v[1..], Less(room, |d.out|), drain);
      Flushed(Tag(v[0].key, d.out) + r.out, [SlotFor(v[0].key, d.rest)] + r.view)
  }

  ghost predicate AllOut<K, I>(out: seq<Tagged<K, I>>, p: (K, I) -> bool) {
    forall i :: 0 <= i < |out| ==> p(out[i].key, out[i].item)
  }

  /** What holds of all items of a chain after draining it holds of all items of the
      table, and of everything put out. */
  lemma {:induction false} FlushAll<K, I>(v: seq<Flow<K, I>>, room: nat, drain: (seq<I>, nat) -> Drain<I>,
                                          p: (K, I) -> bool)
    requires forall i, r: nat :: 0 <= i < |v| && v[i].Flow? ==>
      All(v[i].key, drain(v[i].chain, r).out, p) && All(v[i].key, drain(v[i].chain, r).rest, p)
    requires AllHeld(v, p)
    ensures var r := Flush(v, room, drain); AllOut(r.out, p) && AllHeld(r.view, p)
  {
    if v != [] && room > 0 {
      assert forall i :: 0 <= i < |v[1..]| ==> v[1..][i] == v[i + 1];
      var r := Flush(v, room, drain);
      var d := if v[0].Flow? then drain(v[0].chain, room) else Drain([], []);
      var r' := Flush(v[1..], Less(room, |d.out|), drain);
      FlushAll(v[1..], Less(room, |d.out|), drain, p);
      if v[0].Flow? {
        forall i | 0 <= i < |r.out| ensures p(r.out[i].key, r.out[i].item) {
          assert r.out == Tag(v[0].key, d.out) + r'.out;
        }
      }
      assert r.view[1..] == r'.view;
      forall i | 0 <= i < |r.view| && r.view[i].Flow? ensures All(r.view[i].key, r.view[i].chain, p) {
        if i > 0 { assert r.view[i] == r'.view[i - 1]; }
      }
    }
  }

  /** Everything put out comes from the chain of a flow. */
  lemma {:induction false} FlushFrom<K, I>(v: seq<Flow<K, I>>, room: nat, drain: (seq<I>, nat) -> Drain<I>,
                                           x: Tagged<K, I>) returns (i: nat, r: nat)
    requires x in Flush(v, room, drain).out
    ensures i < |v| && v[i].Flow? && v[i].key == x.key && x.item in drain(v[i].chain, r).out
  {
    var d := if v[0].Flow? then drain(v[0].chain, room) else Drain([], []);
    if v[0].Flow? && x in Tag(v[0].key, d.out) {
      i, r := 0, room;
    } else {
      i, r := FlushFrom(v[1..], Less(room, |d.out|), drain, x);
      i := i + 1;
    }
  }

  ghost predicate EachChain<K, I>(v: seq<Flow<K, I>>, p: (K, seq<I>) -> bool) {
    forall i :: 0 <= i < |v| && v[i].Flow? ==> p(v[i].key, v[i].chain)
  }

  /** What holds of a chain and of what draining leaves of it holds of every chain left. */
  lemma {:induction false} FlushEach<K, I>(v: seq<Flow<K, I>>, room: nat, drain: (seq<I>, nat) -> Drain<I>,
                                           p: (K, seq<I>) -> bool)
    requires forall i, r: nat :: 0 <= i < |v| && v[i].Flow? ==> p(v[i].key, drain(v[i].chain, r).rest)
    requires EachChain(v, p)
    ensures EachChain(Flush(v, room, drain).view, p)
  {
    if v != [] && room > 0 {
      assert forall i :: 0 <= i < |v[1..]| ==> v[1..][i] == v[i + 1];
      var r := Flush(v, room, drain).view;
      var left := if v[0].Flow? then Less(room, |drain(v[0].chain, room).out|) else room;
      FlushEach(v[1..], left, drain, p);
      assert forall i :: 1 <= i < |r| ==> r[i] == Flush(v[1..], left, drain).view[i - 1];
    }
  }

  /** Of the result `r` of flushing `v`, the slots before `i` are done and `k` items out. */
  ghost predicate Flushing<K, I>(v: seq<Flow<K, I>>, room: nat, drain: (seq<I>, nat) -> Drain<I>, r: Flushed<K, I>,
                                 i: nat, k: nat) {
    && i <= |v| == |r.view| && k <= room && k <= |r.out|
    && Flushed(r.out[k..], r.view[i..]) == Flush(v[i..], room - k, drain)
  }

  lemma FlushStart<K, I>(v: seq<Flow<K, I>>, room: nat, drain: (seq<I>, nat) -> Drain<I>)
    requires |Flush(v, room, drain).view| == |v|
    ensures Flushing(v, room, drain, Flush(v, room, drain), 0, 0)
  {
    var r := Flush(v, room, drain);
    assert v[0..] == v && r.view[0..] == r.view && r.out[0..] == r.out;
  }

  lemma FlushStep<K, I>(v: seq<Flow<K, I>>, room: nat, drain: (seq<I>, nat) -> Drain<I>, r: Flushed<K, I>, i: nat,
                        k: nat)
    requires Flushing(v, room, drain, r, i, k) && i < |v| && k < room
    ensures v[i].NoFlow? ==> r.view[i] == v[i] && Flushing(v, room, drain, r, i + 1, k)
    ensures v[i].Flow? ==>
      var d := drain(v[i].chain, room - k);
      |d.out| <= room - k ==>
        && k + |d.out| <= |r.out| && r.out[k..k + |d.out|] == Tag(v[i].key, d.out)
        && r.view[i] == SlotFor(v[i].key, d.rest)
        && Flushing(v, room, drain, r, i + 1, k + |d.out|)
  {
    assert v[i..][1..] == v[i + 1..];
    assert r.view[i + 1..] == r.view[i..][1..];
    if v[i].Flow? {
      var d := drain(v[i].chain, room - k);
      if |d.out| <= room - k {
        var rest := Flush(v[i + 1..], Less(room - k, |d.out|), drain);
        TakePrefix(r.out, k, Tag(v[i].key, d.out), rest.out);
      }
    }
  }

  lemma TakePrefix<T>(s: seq<T>, k: nat, a: seq<T>, b: seq<T>)
    requires k <= |s| && s[k..] == a + b
    ensures k + |a| <= |s| && s[k..k + |a|] == a && s[k + |a|..] == b
  {
    assert |s| - k == |a| + |b|;
    assert s[k..k + |a|] == s[k..][..|a|];
    assert s[k + |a|..] == s[k..][|a|..];
  }

  lemma {:induction false} FlushNone<K, I>(v: seq<Flow<K, I>>, room: nat, drain: (seq<I>, nat) -> Drain<I>)
    requires forall i :: 0 <= i < |v| ==> v[i].NoFlow?
    ensures Flush(v, room, drain) == Flushed([], v)
  {
    if v != [] && room > 0 {
      FlushNone(v[1..], room, drain);
      assert v == [NoFlow] + v[1..];
    }
  }

  /** `v` with its first `i` slots replaced by those of `done`, one by one. */
  ghost function Blend<T>(done: seq<T>, v: seq<T>, i: nat): (r: seq<T>)
    requires i <= |v| == |done|
    ensures |r| == |v|
  {
    if i == 0 then v else Blend(done, v, i - 1)[i - 1 := done[i - 1]]
  }

  lemma {:induction false} BlendAt<T>(done: seq<T>, v: seq<T>, i: nat, j: nat)
    requires i <= |v| == |done| && j < |v|
    ensures Blend(done, v, i)[j] == if j < i then done[j] else v[j]
  {
    if i > 0 {
      BlendAt(done, v, i - 1, j);
    }
  }

  lemma BlendNext<T>(done: seq<T>, v: seq<T>, i: nat)
    requires i < |v| == |done|
    ensures Blend(done, v, i)[i] == v[i]
    ensures Blend(done, v, i)[i := done[i]] == Blend(done, v, i + 1)
    ensures done[i] == v[i] ==> Blend(done, v, i) == Blend(done, v, i + 1)
  {
    BlendAt(done, v, i, i);
  }

  /** The loop over the slots may stop once the room is used up or no flow is live. */
  lemma FlushRest<K, I>(now: seq<Flow<K, I>>, v: seq<Flow<K, I>>, room: nat, drain: (seq<I>, nat) -> Drain<I>,
                        r: Flushed<K, I>, i: nat, k: nat)
    requires Flushing(v, room, drain, r, i, k) && now == Blend(r.view, v, i)
    requires i == |v| || k == room || Live(now) == 0
    ensures now == r.view && k == |r.out|
  {
    forall j | 0 <= j < |v| ensures now[j] == if j < i then r.view[j] else v[j] {
      BlendAt(r.view, v, i, j);
    }
    if i < |v| && k < room {
      NoneLive(now, v, i);
      FlushNone(v[i..], room - k, drain);
    }
    assert Flush(v[i..], room - k, drain) == Flushed([], v[i..]);
    SameFrom(now, r.view, v, i);
  }

  lemma NoneLive<K, I>(now: seq<Flow<K, I>>, v: seq<Flow<K, I>>, i: nat)
    requires i <= |v| == |now| && Live(now) == 0 && forall j :: i <= j < |v| ==> now[j] == v[j]
    ensures forall j :: 0 <= j < |v[i..]| ==> v[i..][j].NoFlow?
  {
    LiveCounts(now);
    forall j | 0 <= j < |v[i..]| ensures v[i..][j].NoFlow? {
      assert v[i..][j] == now[i + j];
    }
  }

  lemma SameFrom<T>(a: seq<T>, b: seq<T>, c: seq<T>, i: nat)
    requires i <= |a| == |b| == |c| && b[i..] == c[i..]
    requires forall j :: 0 <= j < |a| ==> a[j] == if j < i then b[j] else c[j]
    ensures a == b
  {
    forall j | i <= j < |a| ensures a[j] == b[j] {
      assert b[j] == b[i..][j - i] == c[j];
    }
  }

  function Items<K, I>(out: seq<Tagged<K, I>>): seq<I> {
    seq(|out|, i requires 0 <= i < |out| => out[i].item)
  }

  ghost function InOut<K, I, U>(out: seq<Tagged<K, I>>, f: (K, I) -> multiset<U>): multiset<U> {
    if out == [] then multiset{} else f(out[0].key, out[0].item) + InOut(out[1..], f)
  }

  lemma {:induction false} InOutTag<K, I, U>(k: K, c: seq<I>, rest: seq<Tagged<K, I>>, f: (K, I) -> multiset<U>)
    ensures InOut(Tag(k, c) + rest, f) == InChain(k, c, f) + InOut(rest, f)
  {
    var t := Tag(k, c) + rest;
    if c == [] {
      assert t == rest;
    } else {
      assert t[1..] == Tag(k, c[1..]) + rest;
      InOutTag(k, c[1..], rest, f);
    }
  }

  lemma {:induction false} InOutConcat<K, I, U>(a: seq<Tagged<K, I>>, b: seq<Tagged<K, I>>, f: (K, I) -> multiset<U>)
    ensures InOut(a + b, f) == InOut(a, f) + InOut(b, f)
  {
    if a == [] {
      assert a + b == b;
    } else {
      assert (a + b)[1..] == a[1..] + b;
      InOutConcat(a[1..], b, f);
    }
  }

  lemma AllOutConcat<K, I>(a: seq<Tagged<K, I>>, b: seq<Tagged<K, I>>, p: (K, I) -> bool)
    requires AllOut(a, p) && AllOut(b, p)
    ensures AllOut(a + b, p)
  {}

  lemma Move<U>(taken: multiset<U>, held: multiset<U>, out: multiset<U>, e: multiset<U>, held': multiset<U>)
    requires taken == held + out && held == e + held'
    ensures taken == held' + (out + e)
  {}

  lemma Take<U>(taken: multiset<U>, held: multiset<U>, out: multiset<U>, x: multiset<U>)
    requires taken == held + out
    ensures taken + x == (held + x) + out && held + multiset{} == held
  {}

  lemma Regroup<U>(a: multiset<U>, b: multiset<U>, c: multiset<U>, d: multiset<U>)
    ensures (a + b) + (c + d) == (a + c) + (b + d)
  {}

  /** A drained chain holds what it held before, some of it now in the output. */
  ghost predicate Conserves<K, I, U>(k: K, c: seq<I>, d: Drain<I>, f: (K, I) -> multiset<U>) {
    InChain(k, c, f) == InChain(k, d.out, f) + InChain(k, d.rest, f)
  }

  /** A drained chain: what held of all items still does, and nothing is lost. */
  ghost predicate Drained<K, I, U>(k: K, c: seq<I>, d: Drain<I>, ok: (K, I) -> bool, f: (K, I) -> multiset<U>) {
    All(k, d.out, ok) && All(k, d.rest, ok) && Conserves(k, c, d, f)
  }

  /** The first two items of a chain have become one. */
  lemma MergedHead<K, I, U>(k: K, c: seq<I>, m: I, f: (K, I) -> multiset<U>)
    requires |c| > 1 && f(k, m) == f(k, c[0]) + f(k, c[1])
    ensures InChain(k, [m] + c[2..], f) == InChain(k, c, f)
  {
    assert ([m] + c[2..])[1..] == c[2..] == c[1..][1..];
    assert InChain(k, c, f) == f(k, c[0]) + (f(k, c[1]) + InChain(k, c[2..], f));
  }

  /** Putting out the head of `m`, which holds what `c` holds, and draining the rest. */
  lemma ConservesMore<K, I, U>(k: K, c: seq<I>, m: seq<I>, r: Drain<I>, f: (K, I) -> multiset<U>)
    requires m != [] && InChain(k, m, f) == InChain(k, c, f) && Conserves(k, m[1..], r, f)
    ensures Conserves(k, c, Drain([m[0]] + r.out, r.rest), f)
  {
    assert ([m[0]] + r.out)[1..] == r.out;
  }

  lemma AllMore<K, I>(k: K, m: seq<I>, r: seq<I>, p: (K, I) -> bool)
    requires m != [] && All(k, m, p) && All(k, r, p)
    ensures All(k, [m[0]] + r, p)
  {}

  /** Conservation of a flush, for any measure that draining one chain keeps. */
  lemma {:induction false} FlushHeld<K, I, U>(v: seq<Flow<K, I>>, room: nat,
      drain: (seq<I>, nat) -> Drain<I>, f: (K, I) -> multiset<U>)
    requires forall i, r: nat :: 0 <= i < |v| && v[i].Flow? ==> Conserves(v[i].key, v[i].chain, drain(v[i].chain, r), f)
    ensures var r := Flush(v, room, drain);
      Held(v, f) == InOut(r.out, f) + Held(r.view, f)
  {
    if v != [] && room > 0 {
      assert forall i :: 0 <= i < |v[1..]| ==> v[1..][i] == v[i + 1];
      if v[0].NoFlow? {
        FlushHeld(v[1..], room, drain, f);
        assert Flush(v, room, drain).view[1..] == Flush(v[1..], room, drain).view;
      } else {
        var d := drain(v[0].chain, room);
        assert Conserves(v[0].key, v[0].chain, d, f);
        FlushHeld(v[1..], Less(room, |d.out|), drain, f);
        FlushedOne(v[0].key, v[0].chain, v[1..], d, Flush(v[1..], Less(room, |d.out|), drain), f);
      }
    }
  }

  lemma FlushedOne<K, I, U>(k: K, c: seq<I>, rest: seq<Flow<K, I>>, d: Drain<I>, r: Flushed<K, I>,
                            f: (K, I) -> multiset<U>)
    requires Conserves(k, c, d, f) && Held(rest, f) == InOut(r.out, f) + Held(r.view, f)
    ensures InChain(k, c, f) + Held(rest, f) == InOut(Tag(k, d.out) + r.out, f) + Held([SlotFor(k, d.rest)] + r.view, f)
  {
    InOutTag(k, d.out, r.out, f);
    assert ([SlotFor(k, d.rest)] + r.view)[1..] == r.view;
    Regroup(InChain(k, d.out, f), InChain(k, d.rest, f), InOut(r.out, f), Held(r.view, f));
  }

  /** Draining one chain within `room`: the rest is no longer than the chain, and
      every item put out is one item less. */
  ghost predicate Shrinks<I>(c: seq<I>, d: Drain<I>, room: nat) {
    |d.out| <= room && |d.out| + |d.rest| <= |c|
  }

  /** Structure and accounting of a flush. */
  lemma {:induction false} FlushKeepsWf<K, I>(v: seq<Flow<K, I>>, room: nat, drain: (seq<I>, nat) -> Drain<I>)
    requires forall i, r: nat :: 0 <= i < |v| && v[i].Flow? ==> Shrinks(v[i].chain, drain(v[i].chain, r), r)
    requires NonEmpty(v)
    ensures var r := Flush(v, room, drain);
      && |r.view| == |v| && |r.out| <= room && |r.out| + Total(r.view) <= Total(v)
      && (forall i :: 0 <= i < |v| ==> Keeps(v[i], r.view[i]))
  {
    if v != [] && room > 0 {
      assert forall i :: 0 <= i < |v[1..]| ==> v[1..][i] == v[i + 1];
      var r := Flush(v, room, drain);
      var left := if v[0].NoFlow? then room else Less(room, |drain(v[0].chain, room).out|);
      var r' := Flush(v[1..], left, drain);
      if v[0].Flow? {
        assert Shrinks(v[0].chain, drain(v[0].chain, room), room);
      }
      FlushKeepsWf(v[1..], left, drain);
      assert r.view == [r.view[0]] + r'.view;
      forall i | 0 <= i < |v| ensures Keeps(v[i], r.view[i]) {
        if i > 0 { assert Keeps(v[1..][i - 1], r'.view[i - 1]); }
      }
    }
  }

  /** A flow may go, but a flow that stays keeps its slot, its key and some items. */
  predicate Keeps<K(==), I>(before: Flow<K, I>, after: Flow<K, I>) {
    after.Flow? ==> before.Flow? && after.key == before.key && after.chain != []
  }

  lemma KeepsWf<K, I>(v: seq<Flow<K, I>>, v': seq<Flow<K, I>>)
    requires |v| == |v'| && DistinctKeys(v) && Total(v') <= |v'|
    requires forall i :: 0 <= i < |v| ==> Keeps(v[i], v'[i])
    ensures Wf(v')
  {
    forall a, b | 0 <= a < b < |v'| ensures Apart(v', a, b) {
      assert Apart(v, a, b);
      assert Keeps(v[a], v'[a]) && Keeps(v[b], v'[b]);
    }
    forall a | 0 <= a < |v'| && v'[a].Flow? ensures v'[a].chain != [] {
      assert Keeps(v[a], v'[a]);
    }
  }

  /** Changing one flow without adding items to it or changing its key. */
  lemma SlotWf<K, I>(v: seq<Flow<K, I>>, i: nat, f: Flow<K, I>)
    requires Wf(v) && i < |v| && Keeps(v[i], f) && |ChainOf(f)| <= |ChainOf(v[i])|
    ensures Wf(v[i := f]) && Total(v[i := f]) == Total(v) - |ChainOf(v[i])| + |ChainOf(f)|
    ensures Live(v[i := f]) == Live(v) - (if v[i].Flow? then 1 else 0) + (if f.Flow? then 1 else 0)
  {
    TotalSlot(v, i, f);
    KeepsWf(v, v[i := f]);
  }

  ghost predicate Chains<K, I>(v: seq<Flow<K, I>>, ok: seq<I> -> bool) {
    forall i :: 0 <= i < |v| && v[i].Flow? ==> ok(v[i].chain)
  }

  function ChainSum<K, I>(f: Flow<K, I>, n: seq<I> -> nat): nat {
    if f.Flow? then n(f.chain) else 0
  }

  /** The sum of `n` over the chains of a table. */
  function SumChains<K, I>(v: seq<Flow<K, I>>, n: seq<I> -> nat): nat {
    if v == [] then 0 else ChainSum(v[0], n) + SumChains(v[1..], n)
  }

  lemma {:induction false} SumSlot<K, I>(v: seq<Flow<K, I>>, i: nat, f: Flow<K, I>, n: seq<I> -> nat)
    requires i < |v|
    ensures SumChains(v[i := f], n) + ChainSum(v[i], n) == SumChains(v, n) + ChainSum(f, n)
  {
    if i > 0 {
      assert v[i := f][1..] == v[1..][i - 1 := f];
      SumSlot(v[1..], i - 1, f, n);
    } else {
      assert v[i := f][1..] == v[1..];
    }
  }

  lemma {:induction false} NoChains<K, I>(v: seq<Flow<K, I>>, n: seq<I> -> nat)
    requires (forall i :: 0 <= i < |v| ==> v[i].NoFlow?) || forall c :: n(c) == 0
    ensures SumChains(v, n) == 0
  {
    if v != [] {
      assert forall i :: 0 <= i < |v[1..]| ==> v[1..][i] == v[i + 1];
      NoChains(v[1..], n);
    }
  }

  /** A reassembly call changes the sum by what it changes the chain of its flow. */
  lemma StoreSum<K, I>(v: seq<Flow<K, I>>, key: K, item: I, d: Decision<I>, n: seq<I> -> nat)
    requires Applies(d, |Lookup(v, key)|) && n([]) == 0
    ensures var v' := Store(v, key, item, d).view;
      SumChains(v', n) + n(Lookup(v, key)) == SumChains(v, n) + n(Lookup(v', key))
  {
    var i, j, v' := Find(v, key), FirstFree(v), Store(v, key, item, d).view;
    if v' != v {
      var at := if i == |v| then j else i;
      SumSlot(v, at, v'[at], n);
      FindUpdated(v, at, v', key);
    }
  }

  /** With enough room, `drain` empties the chain, and puts out one packet an item except
      for `n` of them. */
  ghost predicate Empties<I>(c: seq<I>, drain: (seq<I>, nat) -> Drain<I>, n: seq<I> -> nat) {
    forall r: nat :: |c| <= r ==>
      var d := drain(c, r); d.rest == [] && |d.out| + n(c) == |c|
  }

  /** With room for every item, such a drain empties the table. */
  lemma {:induction false} FlushEmpties<K, I>(v: seq<Flow<K, I>>, room: nat,
      drain: (seq<I>, nat) -> Drain<I>, n: seq<I> -> nat)
    requires forall i :: 0 <= i < |v| && v[i].Flow? ==> Empties(v[i].chain, drain, n)
    requires NonEmpty(v) && Total(v) <= room
    ensures var r := Flush(v, room, drain);
      Total(r.view) == 0 && |r.out| + SumChains(v, n) == Total(v)
  {
    if v != [] && room > 0 {
      assert forall i :: 0 <= i < |v[1..]| ==> v[1..][i] == v[i + 1];
      var d := if v[0].Flow? then drain(v[0].chain, room) else Drain([], []);
      if v[0].Flow? {
        assert Empties(v[0].chain, drain, n);
      }
      FlushEmpties(v[1..], Less(room, |d.out|), drain, n);
      var r := Flush(v, room, drain);
      assert r.view[1..] == Flush(v[1..], Less(room, |d.out|), drain).view;
    } else {
      LiveWithinTotal(v);
      LiveCounts(v);
      NoChains(v, n);
    }
  }

  /** A flush with room puts nothing out exactly if no chain has anything to put out. */
  lemma {:induction false} FlushQuiet<K, I>(v: seq<Flow<K, I>>, room: nat, drain: (seq<I>, nat) -> Drain<I>,
                                            quiet: seq<I> -> bool)
    requires room > 0 && forall i, r: nat ::
      0 <= i < |v| && v[i].Flow? && r > 0 ==> (drain(v[i].chain, r).out == [] <==> quiet(v[i].chain))
    ensures Flush(v, room, drain).out == [] <==> Chains(v, quiet)
  {
    if v != [] {
      assert forall i :: 0 <= i < |v[1..]| ==> v[1..][i] == v[i + 1];
      assert Chains(v, quiet) <==> Chains(v[1..], quiet) && (v[0].Flow? ==> quiet(v[0].chain));
      if v[0].NoFlow? || drain(v[0].chain, room).out == [] {
        FlushQuiet(v[1..], room, drain, quiet);
      }
    }
  }

  /** If only the chain of slot `i` has anything to put out, a flush drains that one. */
  lemma {:induction false} FlushSingle<K, I>(v: seq<Flow<K, I>>, i: nat, room: nat, drain: (seq<I>, nat) -> Drain<I>)
    requires i < |v| && v[i].Flow? && room > 0 && NonEmpty(v)
    requires forall j, r: nat :: 0 <= j < |v| && j != i && v[j].Flow? ==> drain(v[j].chain, r) == Drain([], v[j].chain)
    ensures var d := drain(v[i].chain, room);
      Flush(v, room, drain) == Flushed(Tag(v[i].key, d.out), v[i := SlotFor(v[i].key, d.rest)])
  {
    assert forall j :: 0 <= j < |v[1..]| ==> v[1..][j] == v[j + 1];
    if i > 0 {
      FlushSingle(v[1..], i - 1, room, drain);
    } else {
      FlushIdle(v[1..], Less(room, |drain(v[0].chain, room).out|), drain);
    }
  }

  lemma {:induction false} FlushIdle<K, I>(v: seq<Flow<K, I>>, room: nat, drain: (seq<I>, nat) -> Drain<I>)
    requires NonEmpty(v)
    requires forall j, r: nat :: 0 <= j < |v| && v[j].Flow? ==> drain(v[j].chain, r) == Drain([], v[j].chain)
    ensures Flush(v, room, drain) == Flushed([], v)
  {
    if v != [] && room > 0 {
      assert forall j :: 0 <= j < |v[1..]| ==> v[1..][j] == v[j + 1];
      FlushIdle(v[1..], room, drain);
      assert v == [v[0]] + v[1..];
    }
  }

  // ----- What a flush does to one flow

  /** The items of flow `k` among `out`. */
  function OfKey<K(==), I>(out: seq<Tagged<K, I>>, k: K): seq<I> {
    if out == [] then []
    else (if out[0].key == k then [out[0].item] else []) + OfKey(out[1..], k)
  }

  /** The room left when the flush gets to flow `k`. */
  function RoomAt<K(==), I>(v: seq<Flow<K, I>>, room: nat, drain: (seq<I>, nat) -> Drain<I>, k: K): nat {
    if v == [] || Owns(v[0], k) then room
    else if v[0].NoFlow? then RoomAt(v[1..], room, drain, k)
    else RoomAt(v[1..], Less(room, |drain(v[0].chain, room).out|), drain, k)
  }

  lemma {:induction false} OfKeyTag<K, I>(key: K, c: seq<I>, rest: seq<Tagged<K, I>>, k: K)
    ensures OfKey(Tag(key, c) + rest, k) == (if key == k then c else []) + OfKey(rest, k)
  {
    if c == [] {
      assert Tag(key, c) + rest == rest;
    } else {
      assert (Tag(key, c) + rest)[0] == Tagged(key, c[0]) && (Tag(key, c) + rest)[1..] == Tag(key, c[1..]) + rest;
      OfKeyTag(key, c[1..], rest, k);
      assert [c[0]] + c[1..] == c;
    }
  }

  /** A flush puts out nothing for a flow that is not in the table. */
  lemma {:induction false} FlushAbsent<K, I>(v: seq<Flow<K, I>>, room: nat, drain: (seq<I>, nat) -> Drain<I>, k: K)
    requires forall i :: 0 <= i < |v| ==> !Owns(v[i], k)
    ensures var r := Flush(v, room, drain);
      OfKey(r.out, k) == [] && |r.view| == |v| && forall i :: 0 <= i < |r.view| ==> !Owns(r.view[i], k)
  {
    if v != [] && room > 0 {
      assert forall i :: 0 <= i < |v[1..]| ==> v[1..][i] == v[i + 1];
      var d := if v[0].Flow? then drain(v[0].chain, room) else Drain([], []);
      FlushAbsent(v[1..], if v[0].Flow? then Less(room, |d.out|) else room, drain, k);
      var r := Flush(v, room, drain);
      if v[0].Flow? {
        var r' := Flush(v[1..], Less(room, |d.out|), drain);
        OfKeyTag(v[0].key, d.out, r'.out, k);
        assert r.view[1..] == r'.view;
      } else {
        assert r.view[1..] == Flush(v[1..], room, drain).view;
      }
    }
  }

  lemma {:induction false} LookupAbsent<K, I>(v: seq<Flow<K, I>>, k: K)
    requires forall i :: 0 <= i < |v| ==> !Owns(v[i], k)
    ensures Find(v, k) == |v| && Lookup(v, k) == []
  {}

  lemma LookupCons<K, I>(f: Flow<K, I>, v: seq<Flow<K, I>>, k: K)
    ensures Lookup([f] + v, k) == if Owns(f, k) then f.chain else Lookup(v, k)
  {
    assert ([f] + v)[1..] == v;
  }

  lemma {:induction false} LookupSame<K, I>(v: seq<Flow<K, I>>, v': seq<Flow<K, I>>, k: K)
    requires |v| == |v'| && forall i :: 0 <= i < |v| && v'[i] != v[i] ==> !Owns(v[i], k) && !Owns(v'[i], k)
    ensures Lookup(v', k) == Lookup(v, k)
  {
    if v != [] {
      assert forall i :: 0 <= i < |v[1..]| ==> v[1..][i] == v[i + 1] && v'[1..][i] == v'[i + 1];
      LookupSame(v[1..], v'[1..], k);
      LookupCons(v[0], v[1..], k);
      LookupCons(v'[0], v'[1..], k);
      assert [v[0]] + v[1..] == v && [v'[0]] + v'[1..] == v';
    }
  }

  /** A flush drains a flow with the room it finds, which is enough if there is room for all. */
  lemma {:induction false} FlushAt<K, I>(v: seq<Flow<K, I>>, room: nat, drain: (seq<I>, nat) -> Drain<I>, k: K)
    requires DistinctKeys(v)
    requires forall c: seq<I> :: drain(c, 0) == Drain([], c)
    requires forall i, r: nat :: 0 <= i < |v| && v[i].Flow? ==> Shrinks(v[i].chain, drain(v[i].chain, r), r)
    ensures var r := Flush(v, room, drain); var left := RoomAt(v, room, drain, k); var d := drain(Lookup(v, k), left);
      && (Find(v, k) < |v| ==> OfKey(r.out, k) == d.out && Lookup(r.view, k) == d.rest)
      && (Find(v, k) == |v| ==> OfKey(r.out, k) == [] && Lookup(r.view, k) == [])
      && (Total(v) <= room ==> |Lookup(v, k)| <= left)
    decreases |v|, 1
  {
    if v == [] {
      assert Find(v, k) == 0;
    } else if room == 0 {
      RoomNever(v, drain, k);
    } else if Owns(v[0], k) {
      FlushFirst(v, room, drain, k);
    } else {
      FlushLater(v, room, drain, k);
    }
  }

  lemma {:induction false} RoomNever<K, I>(v: seq<Flow<K, I>>, drain: (seq<I>, nat) -> Drain<I>, k: K)
    ensures RoomAt(v, 0, drain, k) == 0 && |Lookup(v, k)| <= Total(v)
  {
    if v != [] && !Owns(v[0], k) {
      RoomNever(v[1..], drain, k);
      LookupCons(v[0], v[1..], k);
      assert [v[0]] + v[1..] == v;
    }
  }

  lemma FlushFirst<K, I>(v: seq<Flow<K, I>>, room: nat, drain: (seq<I>, nat) -> Drain<I>, k: K)
    requires DistinctKeys(v) && v != [] && room > 0 && Owns(v[0], k)
    ensures var r := Flush(v, room, drain); var d := drain(Lookup(v, k), room);
      Find(v, k) == 0 && OfKey(r.out, k) == d.out && Lookup(r.view, k) == d.rest && |Lookup(v, k)| <= Total(v)
  {
    forall i | 0 <= i < |v[1..]| ensures !Owns(v[1..][i], k) {
      assert Apart(v, 0, i + 1);
    }
    var d := drain(v[0].chain, room);
    var r' := Flush(v[1..], Less(room, |d.out|), drain);
    FlushAbsent(v[1..], Less(room, |d.out|), drain, k);
    OfKeyTag(k, d.out, r'.out, k);
    LookupCons(SlotFor(k, d.rest), r'.view, k);
    LookupAbsent(r'.view, k);
  }

  lemma {:induction false} FlushLater<K, I>(v: seq<Flow<K, I>>, room: nat, drain: (seq<I>, nat) -> Drain<I>, k: K)
    requires DistinctKeys(v) && v != [] && room > 0 && !Owns(v[0], k)
    requires forall c: seq<I> :: drain(c, 0) == Drain([], c)
    requires forall i, r: nat :: 0 <= i < |v| && v[i].Flow? ==> Shrinks(v[i].chain, drain(v[i].chain, r), r)
    ensures var r := Flush(v, room, drain); var left := RoomAt(v, room, drain, k); var d := drain(Lookup(v, k), left);
      && (Find(v, k) < |v| ==> OfKey(r.out, k) == d.out && Lookup(r.view, k) == d.rest)
      && (Find(v, k) == |v| ==> OfKey(r.out, k) == [] && Lookup(r.view, k) == [])
      && (Total(v) <= room ==> |Lookup(v, k)| <= left)
    decreases |v|, 0
  {
    var d := if v[0].Flow? then drain(v[0].chain, room) else Drain([], []);
    var room' := if v[0].Flow? then Less(room, |d.out|) else room;
    var r' := Flush(v[1..], room', drain);
    if v[0].Flow? {
      assert Shrinks(v[0].chain, d, room);
      OfKeyTag(v[0].key, d.out, r'.out, k);
      LookupCons(SlotFor(v[0].key, d.rest), r'.view, k);
    } else {
      LookupCons(v[0], r'.view, k);
    }
    LookupCons(v[0], v[1..], k);
    assert [v[0]] + v[1..] == v;
    DistinctRest(v);
    FlushAt(v[1..], room', drain, k);
  }

  lemma DistinctRest<K, I>(v: seq<Flow<K, I>>)
    requires v != [] && DistinctKeys(v)
    ensures DistinctKeys(v[1..])
  {
    forall i, j | 0 <= i < j < |v[1..]| ensures Apart(v[1..], i, j) {
      assert Apart(v, i + 1, j + 1);
    }
  }
}
