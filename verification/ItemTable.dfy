/**
  The two arrays every reassembly table is built from. Each of the table modules
  of the repository has its own copy of these operations; they differ only in
  the key and in the payload of an item.
 */
module ItemTable {
  import opened FlowTable

  const INVALID_ARRAY_INDEX := 0xffff_ffff
  const TBL_MAX_ITEM_NUM := 0x10_0000

  // A free slot is one whose `firstseg` is NULL.
  datatype Slot<I> = Free | Used(item: I, next: nat)
  datatype Head<K> = Head(key: K, start: nat)

  function UsedCount<I>(s: seq<Slot<I>>): (n: nat)
    ensures n <= |s|
  {
    if s == [] then 0 else (if s[0].Used? then 1 else 0) + UsedCount(s[1..])
  }

  lemma {:induction false} UsedCountUpdate<I>(s: seq<Slot<I>>, i: nat, x: Slot<I>)
    requires i < |s|
    ensures UsedCount(s[i := x]) == UsedCount(s) - (if s[i].Used? then 1 else 0) + (if x.Used? then 1 else 0)
  {
    if i > 0 {
      assert s[i := x][1..] == s[1..][i - 1 := x];
      UsedCountUpdate(s[1..], i - 1, x);
    } else {
      assert s[i := x][1..] == s[1..];
    }
  }

  lemma {:induction false} UsedCountFull<I>(s: seq<Slot<I>>)
    ensures UsedCount(s) == |s| <==> forall i :: 0 <= i < |s| ==> s[i].Used?
  {
    if s != [] {
      UsedCountFull(s[1..]);
      assert forall i :: 1 <= i < |s| ==> s[i] == s[1..][i - 1];
    }
  }

  // ----- Chains threaded through the item array

  function Link(idx: seq<nat>, i: nat): nat {
    if i < |idx| then idx[i] else INVALID_ARRAY_INDEX
  }

  /** The item at position `i` of a chain, and its link. */
  ghost predicate Threaded<I>(items: seq<Slot<I>>, idx: seq<nat>, c: seq<I>, i: nat)
    requires i < |idx| == |c| && idx[i] < |items|
  {
    items[idx[i]] == Used(c[i], Link(idx, i + 1))
  }

  /** The indices `idx` are all different, and following `next` from `start` visits
      exactly them, in order, and finds the items `c`: the chain is acyclic. */
  ghost predicate Threads<I>(items: seq<Slot<I>>, start: nat, idx: seq<nat>, c: seq<I>) {
    && |idx| == |c|
    && start == Link(idx, 0)
    && (forall i, j :: 0 <= i < j < |idx| ==> idx[i] != idx[j])
    && (forall i :: 0 <= i < |idx| ==> idx[i] < |items| && items[idx[i]].Used?)
    && (forall i :: 0 <= i < |idx| ==> Threaded(items, idx, c, i))
  }

  lemma ThreadsFrame<I>(items: seq<Slot<I>>, items': seq<Slot<I>>, start: nat, idx: seq<nat>, c: seq<I>)
    requires Threads(items, start, idx, c)
    requires |items'| == |items|
    requires forall s :: s in idx && s < |items| ==> items'[s] == items[s]
    ensures Threads(items', start, idx, c)
  {
    forall i | 0 <= i < |idx| ensures items'[idx[i]].Used? && Threaded(items', idx, c, i) {
      assert Threaded(items, idx, c, i) && idx[i] in idx;
    }
  }

  /** A new item behind position `at`. */
  lemma ThreadsInsert<I>(items: seq<Slot<I>>, start: nat, idx: seq<nat>, c: seq<I>, at: nat, s: nat, x: I)
    requires Threads(items, start, idx, c)
    requires at < |idx| && s < |items| && s !in idx
    ensures idx[at] < |items|
    ensures Threads(items[s := Used(x, Link(idx, at + 1))][idx[at] := Used(c[at], s)],
                    start, Insert(idx, at + 1, s), Insert(c, at + 1, x))
  {
    assert Threaded(items, idx, c, at);
    var idx', c' := Insert(idx, at + 1, s), Insert(c, at + 1, x);
    var items' := items[s := Used(x, Link(idx, at + 1))][idx[at] := Used(c[at], s)];
    InsertDistinct(idx, at + 1, s);
    InsertIndex(idx, at + 1, s);
    InsertIndex(c, at + 1, x);
    forall i | 0 <= i < |idx'| ensures idx'[i] < |items'| && items'[idx'[i]].Used? && Threaded(items', idx', c', i) {
      if i != at + 1 {
        var k := if i <= at then i else i - 1;
        assert Threaded(items, idx, c, k) && idx[k] in idx && idx'[i] == idx[k] && c'[i] == c[k];
        assert i != at ==> Link(idx', i + 1) == Link(idx, k + 1);
      } else {
        assert idx'[i] == s && idx[at] in idx;
        assert Link(idx', i + 1) == Link(idx, at + 1);
      }
    }
  }

  lemma InsertIndex<I>(c: seq<I>, at: nat, x: I)
    requires at <= |c|
    ensures |Insert(c, at, x)| == |c| + 1
    ensures forall i :: 0 <= i < at ==> Insert(c, at, x)[i] == c[i]
    ensures Insert(c, at, x)[at] == x
    ensures forall i {:trigger Insert(c, at, x)[i]} :: at < i <= |c| ==> Insert(c, at, x)[i] == c[i - 1]
  {}

  lemma InsertDistinct(idx: seq<nat>, at: nat, s: nat)
    requires at <= |idx| && s !in idx
    requires forall i, j :: 0 <= i < j < |idx| ==> idx[i] != idx[j]
    ensures forall i, j :: 0 <= i < j < |idx| + 1 ==> Insert(idx, at, s)[i] != Insert(idx, at, s)[j]
  {
    var idx' := Insert(idx, at, s);
    assert forall i :: 0 <= i < |idx'| ==> idx'[i] == (if i < at then idx[i] else if i == at then s else idx[i - 1]);
  }

  /** A new item in front of the chain, which may be empty. */
  lemma ThreadsPrepend<I>(items: seq<Slot<I>>, start: nat, idx: seq<nat>, c: seq<I>, s: nat, x: I)
    requires Threads(items, start, idx, c)
    requires s < |items| && s !in idx
    ensures Threads(items[s := Used(x, start)], s, [s] + idx, [x] + c)
  {
    var items', idx', c' := items[s := Used(x, start)], [s] + idx, [x] + c;
    forall i | 0 <= i < |idx'| ensures idx'[i] < |items'| && items'[idx'[i]].Used? && Threaded(items', idx', c', i) {
      if i > 0 {
        assert Threaded(items, idx, c, i - 1) && idx'[i] == idx[i - 1] && idx[i - 1] in idx;
      }
    }
  }

  lemma ThreadsUpdate<I>(items: seq<Slot<I>>, start: nat, idx: seq<nat>, c: seq<I>, at: nat, x: I)
    requires Threads(items, start, idx, c) && at < |idx|
    ensures Threads(items[idx[at] := Used(x, Link(idx, at + 1))], start, idx, c[at := x])
  {
    var items', c' := items[idx[at] := Used(x, Link(idx, at + 1))], c[at := x];
    forall i | 0 <= i < |idx| ensures Threaded(items', idx, c', i) {
      assert Threaded(items, idx, c, i);
    }
  }

  lemma ThreadsRest<I>(items: seq<Slot<I>>, start: nat, idx: seq<nat>, c: seq<I>)
    requires Threads(items, start, idx, c) && idx != []
    ensures Threads(items[start := Free], Link(idx, 1), idx[1..], c[1..])
    ensures start !in idx[1..]
  {
    var items', idx', c' := items[start := Free], idx[1..], c[1..];
    forall i | 0 <= i < |idx'| ensures idx'[i] < |items'| && items'[idx'[i]].Used? && Threaded(items', idx', c', i) {
      assert Threaded(items, idx, c, i + 1) && idx'[i] == idx[i + 1];
    }
  }

  /** Unlinking the second item of a chain. */
  lemma ThreadsDropSecond<I>(items: seq<Slot<I>>, start: nat, idx: seq<nat>, c: seq<I>)
    requires Threads(items, start, idx, c) && |idx| >= 2
    ensures Threads(items[idx[1] := Free][start := Used(c[0], Link(idx, 2))], start, [idx[0]] + idx[2..],
      [c[0]] + c[2..])
    ensures idx[1] !in [idx[0]] + idx[2..]
  {
    var items', idx', c' := items[idx[1] := Free][start := Used(c[0], Link(idx, 2))], [idx[0]] + idx[2..],
      [c[0]] + c[2..];
    forall i | 0 <= i < |idx'| ensures idx'[i] < |items'| && items'[idx'[i]].Used? && Threaded(items', idx', c', i) {
      if i > 0 {
        assert Threaded(items, idx, c, i + 1) && idx'[i] == idx[i + 1] && c'[i] == c[i + 1];
      }
    }
    assert forall i :: 1 <= i < |idx'| ==> idx'[i] == idx[i + 1];
  }

  // ----- The representation invariant

  /** Both arrays, with the abstract table they stand for: for each flow slot the
      item indices of its chain, and for each item the flow slot that owns it. */
  datatype Rep<K, I> = Rep(
    items: seq<Slot<I>>, flows: seq<Head<K>>,
    view: seq<Flow<K, I>>, chains: seq<seq<nat>>, owner: seq<nat>)

  ghost predicate Shape<K, I>(r: Rep<K, I>) {
    && |r.items| == |r.flows| == |r.view| == |r.chains| == |r.owner|
    && |r.items| <= TBL_MAX_ITEM_NUM
  }

  /** Slot `f` of the flow array is free, or heads the chain of the abstract flow. */
  ghost predicate SlotOk<K, I>(r: Rep<K, I>, f: nat)
    requires Shape(r) && f < |r.view|
  {
    && Threads(r.items, r.flows[f].start, r.chains[f], ChainOf(r.view[f]))
    && (r.view[f].Flow? <==> r.flows[f].start != INVALID_ARRAY_INDEX)
    && (r.view[f].Flow? ==> r.view[f].key == r.flows[f].key)
    && (forall s :: s in r.chains[f] ==> s < |r.owner| && r.owner[s] == f)
  }

  /** An occupied item is in the chain of its owner. */
  ghost predicate Covered<K, I>(r: Rep<K, I>, s: nat)
    requires Shape(r) && s < |r.items|
  {
    r.items[s].Used? ==> r.owner[s] < |r.chains| && s in r.chains[r.owner[s]]
  }

  /** Chains are acyclic and disjoint, and cover exactly the occupied items. */
  ghost predicate Ok<K, I>(r: Rep<K, I>) {
    && Shape(r) && Wf(r.view)
    && (forall f :: 0 <= f < |r.view| ==> SlotOk(r, f))
    && (forall s :: 0 <= s < |r.items| ==> Covered(r, s))
    && Total(r.view) == UsedCount(r.items)
  }

  lemma Heads<K, I>(r: Rep<K, I>)
    requires Ok(r)
    ensures forall f :: 0 <= f < |r.view| ==> (r.view[f].Flow? <==> r.flows[f].start != INVALID_ARRAY_INDEX)
  {
    forall f | 0 <= f < |r.view| ensures r.view[f].Flow? <==> r.flows[f].start != INVALID_ARRAY_INDEX {
      assert SlotOk(r, f);
    }
  }

  /** From `r` to `r'`, only flow slot `g` and its items change. */
  ghost predicate Touches<K, I>(r: Rep<K, I>, r': Rep<K, I>, g: nat) {
    && Shape(r) && Shape(r') && |r'.view| == |r.view| && g < |r.view|
    && (forall f :: 0 <= f < |r.view| && f != g ==>
      r'.view[f] == r.view[f] && r'.chains[f] == r.chains[f] && r'.flows[f] == r.flows[f])
    && (forall s :: 0 <= s < |r.items| && r'.owner[s] != g ==> r'.items[s] == r.items[s] && r'.owner[s] == r.owner[s])
    && (forall s :: 0 <= s < |r.items| && r'.items[s].Used? && r.items[s].Free? ==> s in r'.chains[g])
    && (forall s :: s in r.chains[g] && s < |r.items| && r'.items[s].Used? ==> s in r'.chains[g])
    && (forall s :: 0 <= s < |r.items| && r'.owner[s] != r.owner[s] ==> r.items[s].Free?)
  }

  /** An operation on flow slot `g` keeps the invariant if it keeps its own slot in
      order and touches no item of another flow. */
  lemma Restored<K, I>(r: Rep<K, I>, r': Rep<K, I>, g: nat)
    requires Ok(r) && Touches(r, r', g)
    requires SlotOk(r', g) && Wf(r'.view) && Total(r'.view) == UsedCount(r'.items)
    ensures Ok(r')
  {
    forall f | 0 <= f < |r.view| ensures SlotOk(r', f) {
      if f != g {
        assert SlotOk(r, f);
        forall s | s in r.chains[f] ensures s < |r.owner| && r'.owner[s] == f && r'.items[s] == r.items[s] {
          var i :| 0 <= i < |r.chains[f]| && r.chains[f][i] == s;
        }
        ThreadsFrame(r.items, r'.items, r.flows[f].start, r.chains[f], ChainOf(r.view[f]));
      }
    }
    forall s | 0 <= s < |r.items| ensures Covered(r', s) {
      assert Covered(r, s) && SlotOk(r', g);
    }
  }

  lemma FreeIsLoose<K, I>(r: Rep<K, I>, s: nat, g: nat)
    requires Ok(r) && s < |r.items| && r.items[s].Free? && g < |r.view|
    ensures s !in r.chains[g]
  {
    assert SlotOk(r, g);
  }

  /** A new flow, headed by the item at the free index `idx`. */
  function WithFlow<K, I>(r: Rep<K, I>, f: nat, idx: nat, key: K, x: I): Rep<K, I>
    requires Shape(r) && f < |r.view| && idx < |r.items|
  {
    Rep(r.items[idx := Used(x, INVALID_ARRAY_INDEX)], r.flows[f := Head(key, idx)],
        r.view[f := Flow(key, [x])], r.chains[f := [idx]], r.owner[idx := f])
  }

  lemma WithFlowOk<K, I>(r: Rep<K, I>, f: nat, idx: nat, key: K, x: I)
    requires Ok(r) && idx < |r.items| && r.items[idx].Free?
    requires Find(r.view, key) == |r.view| && f == FirstFree(r.view) < |r.view|
    ensures var r' := WithFlow(r, f, idx, key, x);
      && Ok(r') && Stored(r'.view, 0) == Store(r.view, key, x, InsertAt(0))
      && Total(r'.view) == Total(r.view) + 1 && Live(r'.view) == Live(r.view) + 1
  {
    var r' := WithFlow(r, f, idx, key, x);
    assert SlotOk(r, f);
    Counted(r, r', f, idx, x, INVALID_ARRAY_INDEX);
    StoreKeepsWf(r.view, key, x, InsertAt(0));
    Restored(r, r', f);
  }

  /** One more item in a free slot. */
  lemma Counted<K, I>(r: Rep<K, I>, r': Rep<K, I>, f: nat, idx: nat, x: I, next: nat)
    requires Ok(r) && idx < |r.items| && r.items[idx].Free? && f < |r.view|
    requires |r'.view| == |r.view| && r'.view == r.view[f := r'.view[f]]
    requires |ChainOf(r'.view[f])| == |ChainOf(r.view[f])| + 1
    ensures Total(r.view) < |r.view| && Total(r'.view) == Total(r.view) + 1
    ensures UsedCount(r.items[idx := Used(x, next)]) == UsedCount(r.items) + 1
    ensures Live(r'.view) == Live(r.view) + (if r.view[f].NoFlow? then 1 else 0)
  {
    UsedCountFull(r.items);
    UsedCountUpdate(r.items, idx, Used(x, next));
    TotalSlot(r.view, f, r'.view[f]);
  }

  /** A new item at the free index `idx`, behind position `at` of the chain of flow slot `f`. */
  function WithItem<K, I>(r: Rep<K, I>, f: nat, at: nat, idx: nat, x: I): Rep<K, I>
    requires Shape(r) && f < |r.view| && idx < |r.items| && r.view[f].Flow?
    requires at < |r.chains[f]| == |r.view[f].chain| && r.chains[f][at] < |r.items|
  {
    var c, ids := r.view[f].chain, r.chains[f];
    Rep(r.items[idx := Used(x, Link(ids, at + 1))][ids[at] := Used(c[at], idx)], r.flows,
        r.view[f := Flow(r.view[f].key, Insert(c, at + 1, x))],
        r.chains[f := Insert(ids, at + 1, idx)], r.owner[idx := f])
  }

  lemma WithItemOk<K, I>(r: Rep<K, I>, f: nat, at: nat, idx: nat, x: I)
    requires Ok(r) && f < |r.view| && r.view[f].Flow? && at < |r.view[f].chain|
    requires idx < |r.items| && r.items[idx].Free? && Find(r.view, r.view[f].key) == f
    ensures SlotOk(r, f)
    ensures var r' := WithItem(r, f, at, idx, x);
      && Ok(r') && Stored(r'.view, 0) == Store(r.view, r.view[f].key, x, InsertAt(at + 1))
      && Total(r'.view) == Total(r.view) + 1 && Live(r'.view) == Live(r.view)
  {
    assert SlotOk(r, f);
    var r' := WithItem(r, f, at, idx, x);
    WithItemThreads(r, f, at, idx, x);
    WithItemStores(r, f, at, idx, x);
    Restored(r, r', f);
  }

  lemma WithItemStores<K, I>(r: Rep<K, I>, f: nat, at: nat, idx: nat, x: I)
    requires Ok(r) && f < |r.view| && r.view[f].Flow? && at < |r.view[f].chain|
    requires idx < |r.items| && r.items[idx].Free? && Find(r.view, r.view[f].key) == f
    ensures SlotOk(r, f)
    ensures var r' := WithItem(r, f, at, idx, x);
      && Stored(r'.view, 0) == Store(r.view, r.view[f].key, x, InsertAt(at + 1))
      && Total(r'.view) == Total(r.view) + 1 && Live(r'.view) == Live(r.view)
      && Wf(r'.view)
      && UsedCount(r.items[idx := Used(x, Link(r.chains[f], at + 1))]) == UsedCount(r.items) + 1
  {
    assert SlotOk(r, f);
    StoreKeepsWf(r.view, r.view[f].key, x, InsertAt(at + 1));
    Counted(r, WithItem(r, f, at, idx, x), f, idx, x, Link(r.chains[f], at + 1));
  }

  lemma WithItemThreads<K, I>(r: Rep<K, I>, f: nat, at: nat, idx: nat, x: I)
    requires Ok(r) && f < |r.view| && r.view[f].Flow? && at < |r.view[f].chain|
    requires idx < |r.items| && r.items[idx].Free?
    ensures SlotOk(r, f) && r.chains[f][at] in r.chains[f]
    ensures var r' := WithItem(r, f, at, idx, x);
      && SlotOk(r', f) && Touches(r, r', f)
      && UsedCount(r'.items) == UsedCount(r.items[idx := Used(x, Link(r.chains[f], at + 1))])
  {
    assert SlotOk(r, f);
    var ids := r.chains[f];
    var r' := WithItem(r, f, at, idx, x);
    FreeIsLoose(r, idx, f);
    ThreadsInsert(r.items, r.flows[f].start, ids, r.view[f].chain, at, idx, x);
    InsertMembers(ids, at + 1, idx);
    UsedCountUpdate(r.items[idx := Used(x, Link(ids, at + 1))], ids[at], r'.items[ids[at]]);
  }

  lemma InsertMembers(ids: seq<nat>, at: nat, idx: nat)
    requires at <= |ids|
    ensures forall s :: s in Insert(ids, at, idx) <==> s in ids || s == idx
  {
    assert ids == ids[..at] + ids[at..];
  }

  /** A new item at the free index `idx`, in front of the chain of flow slot `f`. */
  function WithFirst<K, I>(r: Rep<K, I>, f: nat, idx: nat, x: I): Rep<K, I>
    requires Shape(r) && f < |r.view| && idx < |r.items| && r.view[f].Flow?
  {
    Rep(r.items[idx := Used(x, r.flows[f].start)], r.flows[f := r.flows[f].(start := idx)],
        r.view[f := Flow(r.view[f].key, Insert(r.view[f].chain, 0, x))],
        r.chains[f := [idx] + r.chains[f]], r.owner[idx := f])
  }

  lemma WithFirstOk<K, I>(r: Rep<K, I>, f: nat, idx: nat, x: I)
    requires Ok(r) && f < |r.view| && r.view[f].Flow?
    requires idx < |r.items| && r.items[idx].Free? && Find(r.view, r.view[f].key) == f
    ensures var r' := WithFirst(r, f, idx, x);
      && Ok(r') && Stored(r'.view, 0) == Store(r.view, r.view[f].key, x, InsertAt(0))
      && Total(r'.view) == Total(r.view) + 1 && Live(r'.view) == Live(r.view)
  {
    assert SlotOk(r, f);
    var r' := WithFirst(r, f, idx, x);
    Counted(r, r', f, idx, x, r.flows[f].start);
    StoreKeepsWf(r.view, r.view[f].key, x, InsertAt(0));
    WithFirstThreads(r, f, idx, x);
    Restored(r, r', f);
  }

  lemma WithFirstThreads<K, I>(r: Rep<K, I>, f: nat, idx: nat, x: I)
    requires Ok(r) && f < |r.view| && r.view[f].Flow? && idx < |r.items| && r.items[idx].Free?
    ensures SlotOk(WithFirst(r, f, idx, x), f)
  {
    assert SlotOk(r, f);
    var c, ids := r.view[f].chain, r.chains[f];
    FreeIsLoose(r, idx, f);
    assert Insert(c, 0, x) == [x] + c;
    ThreadsPrepend(r.items, r.flows[f].start, ids, c, idx, x);
    var r' := WithFirst(r, f, idx, x);
    assert Threads(r'.items, idx, r'.chains[f], ChainOf(r'.view[f]));
  }

  /** The item at position `at` of the chain of flow slot `f` replaced by `x`. */
  function WithChanged<K, I>(r: Rep<K, I>, f: nat, at: nat, x: I): Rep<K, I>
    requires Shape(r) && f < |r.view| && r.view[f].Flow?
    requires at < |r.chains[f]| == |r.view[f].chain| && r.chains[f][at] < |r.items|
  {
    var c, ids := r.view[f].chain, r.chains[f];
    r.(items := r.items[ids[at] := Used(x, Link(ids, at + 1))],
       view := r.view[f := Flow(r.view[f].key, c[at := x])])
  }

  lemma WithChangedOk<K, I>(r: Rep<K, I>, f: nat, at: nat, x: I)
    requires Ok(r) && f < |r.view| && r.view[f].Flow? && at < |r.view[f].chain|
    ensures SlotOk(r, f) && Ok(WithChanged(r, f, at, x))
  {
    assert SlotOk(r, f);
    var r' := WithChanged(r, f, at, x);
    WithChangedThreads(r, f, at, x);
    SlotWf(r.view, f, r'.view[f]);
    Restored(r, r', f);
  }

  lemma WithChangedThreads<K, I>(r: Rep<K, I>, f: nat, at: nat, x: I)
    requires Ok(r) && f < |r.view| && r.view[f].Flow? && at < |r.view[f].chain|
    ensures SlotOk(r, f) && r.chains[f][at] in r.chains[f]
    ensures var r' := WithChanged(r, f, at, x);
      SlotOk(r', f) && Touches(r, r', f) && UsedCount(r'.items) == UsedCount(r.items)
  {
    assert SlotOk(r, f);
    var ids := r.chains[f];
    ThreadsUpdate(r.items, r.flows[f].start, ids, r.view[f].chain, at, x);
    UsedCountUpdate(r.items, ids[at], WithChanged(r, f, at, x).items[ids[at]]);
  }

  /** The chain of flow slot `f` without its first item. */
  function WithoutFirst<K, I>(r: Rep<K, I>, f: nat): Rep<K, I>
    requires Shape(r) && f < |r.view| && r.view[f].Flow?
    requires 0 < |r.chains[f]| == |r.view[f].chain| && r.flows[f].start < |r.items|
  {
    var c, ids := r.view[f].chain, r.chains[f];
    r.(items := r.items[r.flows[f].start := Free],
       flows := r.flows[f := r.flows[f].(start := Link(ids, 1))],
       view := r.view[f := SlotFor(r.view[f].key, c[1..])],
       chains := r.chains[f := ids[1..]])
  }

  lemma WithoutFirstOk<K, I>(r: Rep<K, I>, f: nat)
    requires Ok(r) && f < |r.view| && r.view[f].Flow?
    ensures SlotOk(r, f) && r.view[f].chain != [] && Ok(WithoutFirst(r, f))
  {
    assert SlotOk(r, f);
    var r' := WithoutFirst(r, f);
    WithoutFirstThreads(r, f);
    SlotWf(r.view, f, r'.view[f]);
    Restored(r, r', f);
  }

  lemma WithoutFirstThreads<K, I>(r: Rep<K, I>, f: nat)
    requires Ok(r) && f < |r.view| && r.view[f].Flow?
    ensures SlotOk(r, f) && r.view[f].chain != [] && r.flows[f].start in r.chains[f]
    ensures var r' := WithoutFirst(r, f);
      SlotOk(r', f) && Touches(r, r', f) && UsedCount(r'.items) == UsedCount(r.items) - 1
  {
    assert SlotOk(r, f);
    var ids := r.chains[f];
    ThreadsRest(r.items, r.flows[f].start, ids, r.view[f].chain);
    assert ids == [ids[0]] + ids[1..];
    UsedCountUpdate(r.items, ids[0], Free);
  }

  /** The chain of flow slot `f` without its second item. */
  function WithoutSecond<K, I>(r: Rep<K, I>, f: nat): Rep<K, I>
    requires Shape(r) && f < |r.view| && r.view[f].Flow?
    requires 2 <= |r.chains[f]| == |r.view[f].chain|
    requires r.chains[f][0] < |r.items| && r.chains[f][1] < |r.items|
  {
    var c, ids := r.view[f].chain, r.chains[f];
    r.(items := r.items[ids[1] := Free][ids[0] := Used(c[0], Link(ids, 2))],
       view := r.view[f := Flow(r.view[f].key, [c[0]] + c[2..])],
       chains := r.chains[f := [ids[0]] + ids[2..]])
  }

  lemma WithoutSecondOk<K, I>(r: Rep<K, I>, f: nat)
    requires Ok(r) && f < |r.view| && r.view[f].Flow? && |r.view[f].chain| >= 2
    ensures SlotOk(r, f) && Ok(WithoutSecond(r, f))
  {
    assert SlotOk(r, f);
    var r' := WithoutSecond(r, f);
    WithoutSecondThreads(r, f);
    SlotWf(r.view, f, r'.view[f]);
    Restored(r, r', f);
  }

  lemma WithoutSecondThreads<K, I>(r: Rep<K, I>, f: nat)
    requires Ok(r) && f < |r.view| && r.view[f].Flow? && |r.view[f].chain| >= 2
    ensures SlotOk(r, f) && r.chains[f][0] in r.chains[f] && r.chains[f][1] in r.chains[f]
    ensures var r' := WithoutSecond(r, f);
      && SlotOk(r', f) && UsedCount(r'.items) == UsedCount(r.items) - 1
      && Touches(r, r', f)
  {
    assert SlotOk(r, f);
    var ids := r.chains[f];
    var r' := WithoutSecond(r, f);
    ThreadsDropSecond(r.items, r.flows[f].start, ids, r.view[f].chain);
    assert ids == [ids[0]] + [ids[1]] + ids[2..];
    assert forall s :: s in ids <==> s in r'.chains[f] || s == ids[1];
    UsedCountUpdate(r.items, ids[1], Free);
    UsedCountUpdate(r.items[ids[1] := Free], ids[0], r'.items[ids[0]]);
  }

  lemma {:induction false} EmptyCounts<K, I>(v: seq<Flow<K, I>>, s: seq<Slot<I>>)
    requires forall i :: 0 <= i < |v| ==> v[i].NoFlow?
    requires forall i :: 0 <= i < |s| ==> s[i].Free?
    ensures Total(v) == Live(v) == UsedCount(s) == 0
    decreases |v| + |s|
  {
    if v != [] {
      EmptyCounts(v[1..], s);
    } else if s != [] {
      EmptyCounts(v, s[1..]);
    }
  }

  class Table<K(==, 0), I> {
    const items: array<Slot<I>>
    const flows: array<Head<K>>
    var itemNum: nat
    var flowNum: nat
    const maxItemNum: nat
    const maxFlowNum: nat

    // The abstract table, the item indices of each chain, and the owner of each item.
    ghost var view: seq<Flow<K, I>>
    ghost var chains: seq<seq<nat>>
    ghost var owner: seq<nat>

    ghost function State(): Rep<K, I>
      reads this, items, flows
    {
      Rep(items[..], flows[..], view, chains, owner)
    }

    /** The arrays represent `view`, and both counters are exact. */
    ghost predicate Valid()
      reads this, items, flows
    {
      && Ok(State())
      && maxItemNum == maxFlowNum == |view|
      && itemNum == Total(view)
      && flowNum == Live(view)
    }

    /** The item at position `k` of a live flow's chain. */
    lemma Linked(f: nat, k: nat)
      requires Valid() && f < |view| && view[f].Flow?
      ensures view[f].chain != [] && |chains[f]| == |view[f].chain| && flows[f].start == chains[f][0]
      ensures k < |chains[f]| ==> chains[f][k] < items.Length
      ensures k < |chains[f]| ==> items[chains[f][k]] == Used(view[f].chain[k], Link(chains[f], k + 1))
      ensures flows[f].start < items.Length <= TBL_MAX_ITEM_NUM
    {
      assert SlotOk(State(), f);
      assert chains[f][0] in chains[f];
      if k < |chains[f]| {
        assert Threaded(State().items, chains[f], view[f].chain, k);
        assert State().items[chains[f][k]] == items[chains[f][k]];
      }
    }

    lemma Headed(f: nat)
      requires Valid() && f < |view|
      ensures view[f].Flow? <==> flows[f].start != INVALID_ARRAY_INDEX
    {
      Heads(State());
    }

    lemma NoneLive()
      requires Valid()
      ensures Total(view) == 0 ==> flowNum == 0
    {
      LiveWithinTotal(view);
    }

    constructor (entries: nat)
      requires entries <= TBL_MAX_ITEM_NUM
      ensures Valid() && view == seq(entries, _ => NoFlow) && items.Length == entries
      ensures fresh(items) && fresh(flows)
    {
      items := new Slot<I>[entries](_ => Free);
      flows := new Head<K>[entries];
      itemNum, flowNum := 0, 0;
      maxItemNum, maxFlowNum := entries, entries;
      view := seq(entries, _ => NoFlow);
      chains := seq(entries, _ => []);
      owner := seq(entries, _ => 0);
      new;
      for i := 0 to entries
        invariant forall j :: 0 <= j < i ==> flows[j].start == INVALID_ARRAY_INDEX
        modifies flows
      {
        flows[i] := flows[i].(start := INVALID_ARRAY_INDEX);
      }
      EmptyCounts(view, items[..]);
    }

    method FindAnEmptyItem() returns (idx: nat)
      requires items.Length == maxItemNum <= TBL_MAX_ITEM_NUM
      ensures idx == INVALID_ARRAY_INDEX <==> UsedCount(items[..]) == items.Length
      ensures idx != INVALID_ARRAY_INDEX ==> idx < items.Length && items[idx].Free?
    {
      UsedCountFull(items[..]);
      for i := 0 to maxItemNum
        invariant forall j :: 0 <= j < i ==> items[j].Used?
      {
        if items[i].Free? {
          return i;
        }
      }
      return INVALID_ARRAY_INDEX;
    }

    method FindAnEmptyFlow() returns (idx: nat)
      requires flows.Length == maxFlowNum == |view| <= TBL_MAX_ITEM_NUM
      requires forall f :: 0 <= f < |view| ==> (view[f].Flow? <==> flows[f].start != INVALID_ARRAY_INDEX)
      ensures idx == if FirstFree(view) < |view| then FirstFree(view) else INVALID_ARRAY_INDEX
    {
      for i := 0 to maxFlowNum
        invariant forall j :: 0 <= j < i ==> view[j].Flow?
      {
        if flows[i].start == INVALID_ARRAY_INDEX {
          return i;
        }
      }
      return INVALID_ARRAY_INDEX;
    }

    /** `insert_new_item`: occupy a free item slot and chain it behind `prev`, if given. */
    method InsertNewItem(x: I, prev: nat) returns (idx: nat)
      requires items.Length == maxItemNum <= TBL_MAX_ITEM_NUM
      requires prev != INVALID_ARRAY_INDEX ==> prev < items.Length && items[prev].Used?
      modifies this`itemNum, items
      ensures idx == INVALID_ARRAY_INDEX <==> old(UsedCount(items[..])) == items.Length
      ensures idx == INVALID_ARRAY_INDEX ==> items[..] == old(items[..]) && itemNum == old(itemNum)
      ensures idx != INVALID_ARRAY_INDEX ==>
        && idx < items.Length && old(items[idx].Free?) && itemNum == old(itemNum) + 1
        && items[..] == (if prev == INVALID_ARRAY_INDEX then old(items[..])[idx := Used(x, INVALID_ARRAY_INDEX)]
                         else
                           old(items[..])[idx := Used(x, old(items[prev].next))]
                             [prev := Used(old(items[prev].item), idx)])
    {
      idx := FindAnEmptyItem();
      if idx == INVALID_ARRAY_INDEX {
        return;
      }
      items[idx] := Used(x, INVALID_ARRAY_INDEX);
      itemNum := itemNum + 1;
      if prev != INVALID_ARRAY_INDEX {
        items[idx] := items[idx].(next := items[prev].next);
        items[prev] := items[prev].(next := idx);
      }
    }

    /** `delete_item`; every caller passes the sentinel as the previous item. */
    method DeleteItem(idx: nat) returns (next: nat)
      requires idx < items.Length && items[idx].Used? && itemNum > 0
      modifies this`itemNum, items
      ensures items[..] == old(items[..])[idx := Free]
      ensures itemNum == old(itemNum) - 1
      ensures next == old(items[idx].next)
    {
      next := items[idx].next;
      items[idx] := Free;
      itemNum := itemNum - 1;
    }

    /** `insert_new_flow`: head a new flow at item `idx`. */
    method InsertNewFlow(key: K, idx: nat) returns (f: nat)
      requires flows.Length == maxFlowNum == |view| <= TBL_MAX_ITEM_NUM
      requires forall g :: 0 <= g < |view| ==> (view[g].Flow? <==> flows[g].start != INVALID_ARRAY_INDEX)
      modifies this`flowNum, flows
      ensures f == if FirstFree(view) < |view| then FirstFree(view) else INVALID_ARRAY_INDEX
      ensures f == INVALID_ARRAY_INDEX ==> flows[..] == old(flows[..]) && flowNum == old(flowNum)
      ensures f != INVALID_ARRAY_INDEX
        ==> flows[..] == old(flows[..])[f := Head(key, idx)] && flowNum == old(flowNum) + 1
    {
      f := FindAnEmptyFlow();
      if f == INVALID_ARRAY_INDEX {
        return;
      }
      flows[f] := Head(key, idx);
      flowNum := flowNum + 1;
    }

    /** The search all reassembly functions start with. It stops early, once every
        live flow has been compared. */
    method Search(key: K) returns (find: bool, i: nat)
      requires Valid()
      ensures find <==> Find(view, key) < |view|
      ensures find ==> i == Find(view, key)
    {
      Heads(State());
      var remaining := flowNum;
      i := 0;
      assert view[0..] == view;
      while i < maxFlowNum && remaining > 0
        invariant i <= |view|
        invariant remaining == Live(view[i..])
        invariant Find(view, key) == i + Find(view[i..], key)
      {
        assert view[i..][1..] == view[i + 1..];
        if flows[i].start != INVALID_ARRAY_INDEX {
          assert SlotOk(State(), i);
          if flows[i].key == key {
            return true, i;
          }
          remaining := remaining - 1;
        }
        i := i + 1;
      }
      LiveCounts(view[i..]);
      return false, i;
    }

    /** Store a packet of a flow that the table does not have. */
    method AddFlow(key: K, x: I) returns (ret: int)
      requires Valid() && Find(view, key) == |view|
      modifies this, items, flows
      ensures Valid() && Stored(view, ret) == Store(old(view), key, x, InsertAt(0))
    {
      Heads(State());
      var idx := InsertNewItem(x, INVALID_ARRAY_INDEX);
      if idx == INVALID_ARRAY_INDEX {
        return -1;
      }
      UsedCountFull(old(items[..]));
      NoRollBack(view);
      var f := InsertNewFlow(key, idx);
      WithFlowOk(old(State()), f, idx, key, x);
      view, chains, owner := view[f := Flow(key, [x])], chains[f := [idx]], owner[idx := f];
      return 0;
    }

    /** Store a packet behind the item at index `prev`, the item at position `at`
        of the chain of flow slot `f`. */
    method AddBehind(f: nat, prev: nat, ghost at: nat, x: I) returns (ret: int)
      requires Valid() && f < |view| && view[f].Flow? && Find(view, view[f].key) == f
      requires at < |chains[f]| == |view[f].chain| && chains[f][at] == prev
      modifies this, items
      ensures Valid() && Stored(view, ret) == Store(old(view), old(view[f].key), x, InsertAt(at + 1))
    {
      assert SlotOk(State(), f);
      Linked(f, at);
      var idx := InsertNewItem(x, prev);
      if idx == INVALID_ARRAY_INDEX {
        return -1;
      }
      WithItemOk(old(State()), f, at, idx, x);
      ghost var r' := WithItem(old(State()), f, at, idx, x);
      assert items[..] == r'.items;
      view, chains, owner := r'.view, r'.chains, r'.owner;
      return 0;
    }

    /** Store a packet in front of the chain of flow slot `f`. */
    method AddFirst(f: nat, x: I) returns (ret: int)
      requires Valid() && f < |view| && view[f].Flow? && Find(view, view[f].key) == f
      modifies this, items, flows
      ensures Valid() && Stored(view, ret) == Store(old(view), old(view[f].key), x, InsertAt(0))
    {
      var cur := flows[f].start;
      var idx := InsertNewItem(x, INVALID_ARRAY_INDEX);
      if idx == INVALID_ARRAY_INDEX {
        return -1;
      }
      items[idx] := items[idx].(next := cur);
      flows[f] := flows[f].(start := idx);
      WithFirstOk(old(State()), f, idx, x);
      ghost var r' := WithFirst(old(State()), f, idx, x);
      assert items[..] == r'.items && flows[..] == r'.flows;
      view, chains, owner := r'.view, r'.chains, r'.owner;
      return 0;
    }

    /** Change the payload of the item at index `cur`, which is at position `at` of
        the chain of flow slot `f`. */
    method Change(ghost f: nat, cur: nat, ghost at: nat, x: I)
      requires Valid() && f < |view| && view[f].Flow?
      requires at < |chains[f]| == |view[f].chain| && chains[f][at] == cur
      modifies this, items
      ensures Valid() && chains == old(chains) && flowNum == old(flowNum)
      ensures view == old(view)[f := Flow(old(view[f].key), old(view[f].chain)[at := x])]
    {
      assert SlotOk(State(), f);
      ghost var r' := WithChanged(State(), f, at, x);
      WithChangedOk(State(), f, at, x);
      SlotWf(view, f, r'.view[f]);
      Linked(f, at);
      items[cur] := items[cur].(item := x);
      assert items[..] == r'.items;
      view := r'.view;
    }

    /** Take the first item off the chain of flow slot `f`, as the flush loops do. */
    method RemoveFirst(f: nat) returns (next: nat)
      requires Valid() && f < |view| && view[f].Flow?
      modifies this, items, flows
      ensures Valid() && view == old(view)[f := SlotFor(old(view[f].key), old(view[f].chain)[1..])]
      ensures next == flows[f].start
    {
      assert SlotOk(State(), f);
      ghost var r' := WithoutFirst(State(), f);
      WithoutFirstOk(State(), f);
      SlotWf(view, f, r'.view[f]);
      Linked(f, 0);
      next := DeleteItem(flows[f].start);
      flows[f] := flows[f].(start := next);
      if next == INVALID_ARRAY_INDEX {
        flowNum := flowNum - 1;
      }
      view, chains := r'.view, r'.chains;
    }

    /** Delete the item at index `idx`, second in the chain of flow slot `f`, and link
        the first to its successor, as the merge loop before a UDP flush does. */
    method RemoveSecond(ghost f: nat, start: nat, idx: nat) returns (next: nat)
      requires Valid() && f < |view| && view[f].Flow? && |view[f].chain| >= 2
      requires |chains[f]| == |view[f].chain| && chains[f][0] == start && chains[f][1] == idx
      modifies this, items
      ensures Valid()
      ensures view == old(view)[f := Flow(old(view[f].key), [old(view[f].chain)[0]] + old(view[f].chain)[2..])]
      ensures next == Link(chains[f], 1) && flowNum == old(flowNum)
      ensures |chains[f]| == |view[f].chain| && chains[f][0] == start
    {
      assert SlotOk(State(), f);
      ghost var r' := WithoutSecond(State(), f);
      WithoutSecondOk(State(), f);
      SlotWf(view, f, r'.view[f]);
      Linked(f, 0);
      Linked(f, 1);
      next := DeleteItem(idx);
      items[start] := items[start].(next := next);
      assert items[..] == r'.items;
      view, chains := r'.view, r'.chains;
      assert State() == r';
    }
  }

  /** The number of entries a table is created with. */
  function EntriesNum(maxFlowNum: nat, maxItemPerFlow: nat): nat {
    var n := maxFlowNum * maxItemPerFlow;
    if n < TBL_MAX_ITEM_NUM then n else TBL_MAX_ITEM_NUM
  }

  /** `gro_gtp_udp4_tbl_create` and the like, with memory to be had: no table if it would
      have no entries. The product is that of two `int`s, which must not overflow. */
  method Create<K(==, 0), I>(maxFlowNum: nat, maxItemPerFlow: nat) returns (t: Table?<K, I>)
    requires maxFlowNum < 0x1_0000 && maxItemPerFlow < 0x1_0000 && maxFlowNum * maxItemPerFlow < 0x8000_0000
    ensures t == null <==> maxFlowNum == 0 || maxItemPerFlow == 0
    ensures t != null ==>
      && fresh(t) && fresh(t.items) && fresh(t.flows) && t.Valid()
      && t.items.Length == (if maxFlowNum * maxItemPerFlow < 0x10_0000 then maxFlowNum * maxItemPerFlow else 0x10_0000)
      && t.view == seq(t.items.Length, _ => NoFlow)
  {
    var entriesNum := EntriesNum(maxFlowNum, maxItemPerFlow);
    if entriesNum == 0 {
      return null;
    }
    t := new Table<K, I>(entriesNum);
  }
}
