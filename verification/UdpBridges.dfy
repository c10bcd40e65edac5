/**
  How many merges are left for a flush: as many as fragments arrived that bridge a gap,
  because the scan joins such a fragment to one side only.
 */
module UdpBridges {
  import opened Packets
  import opened FlowTable
  import opened Udp
  import opened UdpLaws
  import opened UdpOrder
  import opened UdpDatagrams

  // ----- Neighbours in a chain

  predicate Touch(x: UdpItem, y: UdpItem) { End(x) == y.fragOffset }

  /** The number of items that start where the one before ends. */
  function Touching(c: seq<UdpItem>): nat {
    if |c| < 2 then 0 else (if Touch(c[0], c[1]) then 1 else 0) + Touching(c[1..])
  }

  lemma {:induction false} TouchingJoin(a: seq<UdpItem>, b: seq<UdpItem>)
    ensures Touching(a + b)
      == Touching(a) + Touching(b) + if a != [] && b != [] && Touch(a[|a| - 1], b[0]) then 1 else 0
  {
    if a == [] {
      assert a + b == b;
    } else if |a| == 1 {
      assert (a + b)[1..] == b;
    } else {
      assert (a + b)[1..] == a[1..] + b;
      TouchingJoin(a[1..], b);
    }
  }

  /** The merges of a flush: what `Fuse` swallows, chain by chain. */
  function Swallowed(c: seq<UdpItem>): nat
    decreases |c|
  {
    if c == [] then 0 else |c| - |Fuse(c)| + Swallowed(Fuse(c)[1..])
  }

  /** A flush with room for a chain puts out one packet an item, less its merges. */
  lemma {:induction false} DrainSwallows(c: seq<UdpItem>, ts: nat, room: nat)
    requires AllDue(c, ts) && |c| <= room
    ensures var d := DrainChain(c, ts, room); d.rest == [] && |d.out| + Swallowed(c) == |c|
    decreases |c|
  {
    if c != [] {
      FuseDue(c, ts);
      DrainSwallows(Fuse(c)[1..], ts, room - 1);
      DrainUnfold(c, ts, room);
    }
  }

  lemma {:induction false} FuseTouching(k: UdpKey, c: seq<UdpItem>, l: Lengths, ts: nat, cov: nat -> bool)
    requires c != [] && Flushable(k, c, ts, l, cov)
    ensures Touching(Fuse(c)[1..]) + (|c| - |Fuse(c)|) == Touching(c)
    decreases |c|
  {
    if |c| > 1 {
      FuseRound(k, c, l, ts, cov);
      if FuseOnce(c) != c {
        FuseTouching(k, FuseOnce(c), l, ts, cov);
        OneFused(c, FuseOnce(c));
      }
    }
  }

  lemma OneFused(c: seq<UdpItem>, c': seq<UdpItem>)
    requires |c| > 1 && Touch(c[0], c[1]) && c' != [] && c' == [c'[0]] + c[2..] && End(c'[0]) == End(c[1])
    ensures Touching(c') + 1 == Touching(c)
  {
    assert c'[1..] == c[1..][1..];
    if |c| > 2 {
      assert c[1..][1] == c[2] == c'[1];
    }
  }

  /** The merges of a flush of separate items that fit: one for each touching pair. */
  lemma {:induction false} SwallowsTouching(k: UdpKey, c: seq<UdpItem>, l: Lengths, ts: nat, cov: nat -> bool)
    requires Flushable(k, c, ts, l, cov)
    ensures Swallowed(c) == Touching(c)
    decreases |c|
  {
    if c != [] {
      FuseTouching(k, c, l, ts, cov);
      FuseFlushable(k, c, ts, l, cov);
      SwallowsTouching(k, Fuse(c)[1..], l, ts, cov);
    }
  }

  // ----- One arrival

  function StartOf(p: Mbuf): nat { FragOffset(p.hdr) }

  function EndOf(p: Mbuf): nat { FragOffset(p.hdr) + |Bytes(p)| }

  predicate Behind(c: seq<UdpItem>, p: Mbuf) { exists i :: 0 <= i < |c| && End(c[i]) == FragOffset(p.hdr) }

  predicate InFront(c: seq<UdpItem>, p: Mbuf) {
    exists i :: 0 <= i < |c| && c[i].fragOffset == FragOffset(p.hdr) + |Bytes(p)|
  }

  /** An arriving fragment that overlaps nothing. */
  ghost predicate Arriving(c: seq<UdpItem>, p: Mbuf, l: Lengths) {
    ItemsOk(KeyOf(p.hdr), c, l) && PacketOk(p, l) && Separate(c) && AllClear(c, p)
  }

  /** Where item `i` lies. */
  lemma ItemSides(c: seq<UdpItem>, p: Mbuf, l: Lengths, i: nat)
    requires Arriving(c, p, l) && i < |c|
    ensures var s := StopAt(c, p, 0);
      && c[i].fragOffset < End(c[i]) && (i < s ==> End(c[i]) < StartOf(p)) && (i > s ==> EndOf(p) <= c[i].fragOffset)
      && (Cmp(c[i], p) > 0 <==> StartOf(p) == End(c[i])) && (Cmp(c[i], p) < 0 <==> EndOf(p) == c[i].fragOffset)
  {
    ScanSides(c, p, l);
    assert ItemOk(KeyOf(p.hdr), c[i], l);
    NeighborMeans(KeyOf(p.hdr), c[i], p, l);
  }

  /** Only where the scan stops can an item end where the fragment starts. */
  lemma BehindStop(c: seq<UdpItem>, p: Mbuf, l: Lengths)
    requires Arriving(c, p, l)
    ensures var s := StopAt(c, p, 0); Behind(c, p) <==> s < |c| && End(c[s]) == StartOf(p)
  {
    forall i | 0 <= i < |c| && End(c[i]) == StartOf(p) ensures i == StopAt(c, p, 0) {
      ItemSides(c, p, l, i);
    }
  }

  /** Then only the item behind that one can start where the fragment ends. */
  lemma InFrontNext(c: seq<UdpItem>, p: Mbuf, l: Lengths)
    requires Arriving(c, p, l) && Behind(c, p)
    ensures var s := StopAt(c, p, 0); InFront(c, p) <==> s + 1 < |c| && c[s + 1].fragOffset == EndOf(p)
  {
    var s := StopAt(c, p, 0);
    BehindStop(c, p, l);
    forall i | 0 <= i < |c| && c[i].fragOffset == EndOf(p) ensures i == s + 1 {
      ItemSides(c, p, l, i);
      if i > s + 1 {
        ItemSides(c, p, l, s + 1);
      }
    }
  }

  /** What surrounds the place of a fragment that has nothing behind it. */
  lemma NothingBehind(c: seq<UdpItem>, p: Mbuf, l: Lengths)
    requires Arriving(c, p, l) && !Behind(c, p)
    ensures var s := StopAt(c, p, 0);
      && (s > 0 ==> End(c[s - 1]) < StartOf(p))
      && (s < |c| ==> EndOf(p) <= c[s].fragOffset && !(Cmp(c[s], p) > 0))
  {
    var s := StopAt(c, p, 0);
    BehindStop(c, p, l);
    ScanSides(c, p, l);
    if s > 0 {
      ItemSides(c, p, l, s - 1);
    }
    if s < |c| {
      ItemSides(c, p, l, s);
    }
  }

  /** A fragment adds a touching pair exactly if it has a neighbour on both sides. */
  lemma StepTouching(c: seq<UdpItem>, p: Mbuf, t: nat, l: Lengths, cov: nat -> bool)
    requires ItemsOk(KeyOf(p.hdr), c, l) && PacketOk(p, l) && Separate(c) && AllClear(c, p)
    requires ChainWithin(cov, c) && PacketWithin(cov, p) && Fitting(cov, l)
    ensures Touching(StepChain(c, p, t)) == Touching(c) + if Behind(c, p) && InFront(c, p) then 1 else 0
  {
    NeverRefused(c, p, l, cov);
    if Merges(c, p) {
      MergeTouching(c, p, t, l);
    } else {
      FreshTouching(c, p, t, l);
    }
  }

  lemma MergeTouching(c: seq<UdpItem>, p: Mbuf, t: nat, l: Lengths)
    requires Arriving(c, p, l) && Merges(c, p)
    ensures Touching(StepChain(c, p, t)) == Touching(c) + if Behind(c, p) && InFront(c, p) then 1 else 0
  {
    var s, m := MergedEnds(c, p, t, l);
    ReplaceTouching(c, s, m);
    if Behind(c, p) {
      AppendTouches(c, p, s, m, l);
    } else {
      PrependTouches(c, p, s, m, l);
    }
  }

  /** The item at which the scan stops takes the fragment at one end. */
  lemma MergedEnds(c: seq<UdpItem>, p: Mbuf, t: nat, l: Lengths) returns (s: nat, m: UdpItem)
    requires Arriving(c, p, l) && Merges(c, p)
    ensures s == StopAt(c, p, 0) < |c| && StepChain(c, p, t) == c[s := m]
    ensures Behind(c, p) ==> m.fragOffset == c[s].fragOffset && End(m) == EndOf(p)
    ensures !Behind(c, p) ==> m.fragOffset == StartOf(p) && End(m) == End(c[s])
  {
    s := StopAt(c, p, 0);
    DecideStops(c, p, 0);
    m := Merge(c[s], p, Cmp(c[s], p), FragOffset(p.hdr), !p.hdr.mf);
    BehindStop(c, p, l);
    ItemSides(c, p, l, s);
    MergeOk(KeyOf(p.hdr), c[s], p, !p.hdr.mf, l);
  }

  /** The pairs that item `s` of the chain is part of. */
  function Around(c: seq<UdpItem>, s: nat, x: UdpItem): nat
    requires s < |c|
  {
    (if s > 0 && Touch(c[s - 1], x) then 1 else 0) + (if s + 1 < |c| && Touch(x, c[s + 1]) then 1 else 0)
  }

  lemma AppendTouches(c: seq<UdpItem>, p: Mbuf, s: nat, m: UdpItem, l: Lengths)
    requires Arriving(c, p, l) && Behind(c, p) && s == StopAt(c, p, 0) < |c|
    requires m.fragOffset == c[s].fragOffset && End(m) == EndOf(p)
    ensures Around(c, s, m) == Around(c, s, c[s]) + if InFront(c, p) then 1 else 0
  {
    BehindStop(c, p, l);
    InFrontNext(c, p, l);
    if s + 1 < |c| {
      ItemSides(c, p, l, s + 1);
    }
  }

  lemma PrependTouches(c: seq<UdpItem>, p: Mbuf, s: nat, m: UdpItem, l: Lengths)
    requires Arriving(c, p, l) && !Behind(c, p) && s == StopAt(c, p, 0) < |c|
    requires m.fragOffset == StartOf(p) && End(m) == End(c[s])
    ensures Around(c, s, m) == Around(c, s, c[s])
  {
    NothingBehind(c, p, l);
    if s > 0 {
      ItemSides(c, p, l, s - 1);
    }
  }

  lemma FreshTouching(c: seq<UdpItem>, p: Mbuf, t: nat, l: Lengths)
    requires Arriving(c, p, l) && !Merges(c, p) && !Refused(c, p)
    ensures Touching(StepChain(c, p, t)) == Touching(c) && !Behind(c, p)
  {
    var s := StopAt(c, p, 0);
    BehindStop(c, p, l);
    if s < |c| {
      ItemSides(c, p, l, s);
    }
    NothingBehind(c, p, l);
    DecideStops(c, p, 0);
    InsertTouching(c, s, Fresh(p, t));
  }

  lemma ReplaceTouching(c: seq<UdpItem>, s: nat, x: UdpItem)
    requires s < |c|
    ensures Touching(c[s := x]) + Around(c, s, c[s]) == Touching(c) + Around(c, s, x)
  {
    var a, b := c[..s], c[s + 1..];
    assert (s > 0 ==> a[|a| - 1] == c[s - 1]) && (s + 1 < |c| ==> b[0] == c[s + 1]);
    Joining(a, c[s], b);
    Joining(a, x, b);
    Pieces(c, s, x);
  }

  lemma Pieces(c: seq<UdpItem>, s: nat, x: UdpItem)
    requires s <= |c|
    ensures Insert(c, s, x) == c[..s] + ([x] + c[s..]) && c == c[..s] + c[s..]
    ensures s < |c| ==> c[s := x] == c[..s] + ([x] + c[s + 1..]) && c == c[..s] + ([c[s]] + c[s + 1..])
  {}

  lemma InsertTouching(c: seq<UdpItem>, s: nat, x: UdpItem)
    requires s <= |c| && !(0 < s < |c| && Touch(c[s - 1], c[s]))
    requires !(s > 0 && Touch(c[s - 1], x)) && !(s < |c| && Touch(x, c[s]))
    ensures Touching(Insert(c, s, x)) == Touching(c)
  {
    var a, b := c[..s], c[s..];
    assert (s > 0 ==> a[|a| - 1] == c[s - 1]) && (s < |c| ==> b[0] == c[s]);
    Between(a, x, b);
    Pieces(c, s, x);
  }

  lemma Between(a: seq<UdpItem>, x: UdpItem, b: seq<UdpItem>)
    requires a != [] && b != [] ==> !Touch(a[|a| - 1], b[0])
    requires (a != [] ==> !Touch(a[|a| - 1], x)) && (b != [] ==> !Touch(x, b[0]))
    ensures Touching(a + ([x] + b)) == Touching(a + b)
  {
    Joining(a, x, b);
    TouchingJoin(a, b);
  }

  /** Counting on both sides of one item. */
  lemma Joining(a: seq<UdpItem>, x: UdpItem, b: seq<UdpItem>)
    ensures Touching(a + ([x] + b)) == Touching(a) + Touching(b)
      + (if a != [] && Touch(a[|a| - 1], x) then 1 else 0) + (if b != [] && Touch(x, b[0]) then 1 else 0)
  {
    TouchingJoin([x], b);
    TouchingJoin(a, [x] + b);
  }

  // ----- All arrivals

  predicate EndsAt(a: seq<Arrival>, x: nat) { exists i :: 0 <= i < |a| && EndOf(a[i].p) == x }

  predicate StartsAt(a: seq<Arrival>, x: nat) { exists i :: 0 <= i < |a| && StartOf(a[i].p) == x }

  /** Fragment `p` arrives when both what ends where it starts and what starts where it
      ends are there. */
  predicate Bridging(a: seq<Arrival>, p: Mbuf) { EndsAt(a, StartOf(p)) && StartsAt(a, EndOf(p)) }

  /** The number of fragments that bridge a gap when they arrive. */
  function Bridges(a: seq<Arrival>): nat {
    if a == [] then 0
    else Bridges(a[..|a| - 1]) + if Bridging(a[..|a| - 1], a[|a| - 1].p) then 1 else 0
  }

  predicate Inside(p: Mbuf, it: UdpItem) { it.fragOffset <= StartOf(p) && EndOf(p) <= End(it) }

  predicate Bounded(a: seq<Arrival>, it: UdpItem) { StartsAt(a, it.fragOffset) && EndsAt(a, End(it)) }

  predicate Contained(p: Mbuf, c: seq<UdpItem>) { exists i :: 0 <= i < |c| && Inside(p, c[i]) }

  predicate BoundedItem(a: seq<Arrival>, c: seq<UdpItem>, i: nat) { i < |c| ==> Bounded(a, c[i]) }

  predicate ContainedArrival(a: seq<Arrival>, c: seq<UdpItem>, i: nat) { i < |a| ==> Contained(a[i].p, c) }

  /** Items start and end where fragments do, and each fragment is inside an item. */
  ghost predicate MadeOf(c: seq<UdpItem>, a: seq<Arrival>) {
    (forall i: nat :: BoundedItem(a, c, i)) && (forall i: nat :: ContainedArrival(a, c, i))
  }

  lemma BoundedMore(a: seq<Arrival>, x: Arrival, it: UdpItem)
    requires Bounded(a, it)
    ensures Bounded(a + [x], it)
  {
    var i :| 0 <= i < |a| && StartOf(a[i].p) == it.fragOffset;
    var j :| 0 <= j < |a| && EndOf(a[j].p) == End(it);
    assert (a + [x])[i] == a[i] && (a + [x])[j] == a[j];
  }

  /** The fragment `p` went into item `at` of the chain `c'`, or became that item. */
  ghost predicate PlacedAt(c: seq<UdpItem>, c': seq<UdpItem>, p: Mbuf, at: nat, merged: bool) {
    && at < |c'| && Inside(p, c'[at])
    && if merged then at < |c| && c' == c[at := c'[at]] && Grown(c[at], p, c'[at])
       else at <= |c| && c' == Insert(c, at, c'[at]) && c'[at].fragOffset == StartOf(p) && End(c'[at]) == EndOf(p)
  }

  /** An item before and after it took a fragment. */
  predicate Grown(x: UdpItem, p: Mbuf, y: UdpItem) {
    && (y.fragOffset == x.fragOffset || y.fragOffset == StartOf(p)) && y.fragOffset <= x.fragOffset
    && (End(y) == End(x) || End(y) == EndOf(p)) && End(x) <= End(y)
  }

  lemma StepPlace(c: seq<UdpItem>, p: Mbuf, t: nat, l: Lengths) returns (at: nat, merged: bool)
    requires ItemsOk(KeyOf(p.hdr), c, l) && PacketOk(p, l)
    ensures PlacedAt(c, StepChain(c, p, t), p, at, merged)
  {
    DecideStops(c, p, 0);
    var s := StopAt(c, p, 0);
    merged := Merges(c, p);
    if merged {
      at := s;
      NeighborMeans(KeyOf(p.hdr), c[s], p, l);
      MergeOk(KeyOf(p.hdr), c[s], p, !p.hdr.mf, l);
    } else {
      at := if Refused(c, p) && s == 0 then 1 else s;
    }
  }

  /** Which item of the old chain item `i` of the new one was. */
  lemma OldItem(c: seq<UdpItem>, c': seq<UdpItem>, p: Mbuf, at: nat, merged: bool, i: nat)
    requires PlacedAt(c, c', p, at, merged) && i < |c'| && i != at
    ensures var j := if merged || i < at then i else i - 1; j < |c| && c'[i] == c[j]
  {}

  lemma NewItem(c: seq<UdpItem>, c': seq<UdpItem>, p: Mbuf, at: nat, merged: bool, j: nat)
    requires PlacedAt(c, c', p, at, merged) && j < |c|
    ensures var i := if merged || j < at then j else j + 1;
      i < |c'| && c'[i].fragOffset <= c[j].fragOffset && End(c[j]) <= End(c'[i])
  {}

  lemma StepBounded(c: seq<UdpItem>, c': seq<UdpItem>, a: seq<Arrival>, x: Arrival, at: nat, merged: bool, i: nat)
    requires PlacedAt(c, c', x.p, at, merged) && i < |c'| && forall j: nat :: BoundedItem(a, c, j)
    ensures Bounded(a + [x], c'[i])
  {
    assert (a + [x])[|a|] == x;
    if i != at {
      var j := if merged || i < at then i else i - 1;
      OldItem(c, c', x.p, at, merged, i);
      assert BoundedItem(a, c, j);
      BoundedMore(a, x, c[j]);
    } else if merged {
      assert BoundedItem(a, c, at);
      BoundedMore(a, x, c[at]);
    }
  }

  lemma StepContained(c: seq<UdpItem>, c': seq<UdpItem>, p: Mbuf, at: nat, merged: bool, q: Mbuf)
    requires PlacedAt(c, c', p, at, merged) && Contained(q, c)
    ensures Contained(q, c')
  {
    var j :| 0 <= j < |c| && Inside(q, c[j]);
    NewItem(c, c', p, at, merged, j);
    assert Inside(q, c'[if merged || j < at then j else j + 1]);
  }

  lemma StepMadeOf(c: seq<UdpItem>, a: seq<Arrival>, p: Mbuf, t: nat, l: Lengths)
    requires ItemsOk(KeyOf(p.hdr), c, l) && PacketOk(p, l) && MadeOf(c, a)
    ensures MadeOf(StepChain(c, p, t), a + [Arrival(p, t)])
  {
    var c', a' := StepChain(c, p, t), a + [Arrival(p, t)];
    var at, merged := StepPlace(c, p, t, l);
    forall i: nat ensures BoundedItem(a', c', i) {
      if i < |c'| {
        StepBounded(c, c', a, Arrival(p, t), at, merged, i);
      }
    }
    forall i: nat ensures ContainedArrival(a', c', i) {
      if i == |a| {
        assert Inside(p, c'[at]);
      } else if i < |a| {
        assert a'[i] == a[i] && ContainedArrival(a, c, i);
        StepContained(c, c', p, at, merged, a[i].p);
      }
    }
  }

  /** What ends where a fragment starts ends there among the items as well. */
  lemma BehindArrived(c: seq<UdpItem>, a: seq<Arrival>, p: Mbuf, l: Lengths)
    requires MadeOf(c, a) && AllClear(c, p) && forall i :: 0 <= i < |a| ==> PacketOk(a[i].p, l)
    ensures Behind(c, p) <==> EndsAt(a, StartOf(p))
  {
    if Behind(c, p) {
      var i :| 0 <= i < |c| && End(c[i]) == FragOffset(p.hdr);
      assert BoundedItem(a, c, i);
    }
    if EndsAt(a, StartOf(p)) {
      var j :| 0 <= j < |a| && EndOf(a[j].p) == StartOf(p);
      assert ContainedArrival(a, c, j) && PacketOk(a[j].p, l);
      var i :| 0 <= i < |c| && Inside(a[j].p, c[i]);
      assert Clear(c[i], p);
    }
  }

  lemma InFrontArrived(c: seq<UdpItem>, a: seq<Arrival>, p: Mbuf, l: Lengths)
    requires MadeOf(c, a) && AllClear(c, p) && forall i :: 0 <= i < |a| ==> PacketOk(a[i].p, l)
    ensures InFront(c, p) <==> StartsAt(a, EndOf(p))
  {
    if InFront(c, p) {
      var i :| 0 <= i < |c| && c[i].fragOffset == FragOffset(p.hdr) + |Bytes(p)|;
      assert BoundedItem(a, c, i);
    }
    if StartsAt(a, EndOf(p)) {
      var j :| 0 <= j < |a| && StartOf(a[j].p) == EndOf(p);
      assert ContainedArrival(a, c, j) && PacketOk(a[j].p, l);
      var i :| 0 <= i < |c| && Inside(a[j].p, c[i]);
      assert Clear(c[i], p);
    }
  }

  /** What `a` makes of an empty chain. */
  ghost predicate ArrivedAs(k: UdpKey, a: seq<Arrival>, c: seq<UdpItem>, l: Lengths, cov: nat -> bool) {
    ItemsOk(k, c, l) && Separate(c) && ChainWithin(cov, c) && MadeOf(c, a) && Touching(c) == Bridges(a)
  }

  ghost predicate Proper(k: UdpKey, a: seq<Arrival>, l: Lengths, cov: nat -> bool) {
    Fragments(k, a, l) && Fitting(cov, l) && forall i :: 0 <= i < |a| ==> PacketWithin(cov, a[i].p)
  }

  lemma LastArrival(c: seq<UdpItem>, a: seq<Arrival>)
    requires a != []
    ensures var n := |a| - 1; a == a[..n] + [a[n]] && Arrive(c, a) == StepChain(Arrive(c, a[..n]), a[n].p, a[n].t)
  {
    var n := |a| - 1;
    ArriveMoreOne(c, a[..n], a[n]);
    assert a == a[..n] + [a[n]];
  }

  /** A fragment apart from all that arrived is apart from the chain. */
  lemma {:induction false} ArriveClear(k: UdpKey, a: seq<Arrival>, l: Lengths, p: Mbuf)
    requires Fragments(k, a, l) && PacketOk(p, l) && forall i :: 0 <= i < |a| ==> Disjoint(a[i].p, p)
    ensures AllClear(Arrive([], a), p)
  {
    if a != [] {
      var n := |a| - 1;
      LastArrival([], a);
      assert forall i :: 0 <= i < n ==> a[..n][i] == a[i];
      ArriveClear(k, a[..n], l, p);
      PrefixItems(k, a[..n], l);
      StepClear(Arrive([], a[..n]), a[n].p, a[n].t, l, p);
    }
  }

  lemma PrefixItems(k: UdpKey, a: seq<Arrival>, l: Lengths)
    requires Fragments(k, a, l)
    ensures ItemsOk(k, Arrive([], a), l)
  {
    ItemsArrive(k, [], a, l);
  }

  lemma {:induction false} ItemsArrive(k: UdpKey, c: seq<UdpItem>, a: seq<Arrival>, l: Lengths)
    requires ItemsOk(k, c, l) && forall i :: 0 <= i < |a| ==> PacketOk(a[i].p, l) && KeyOf(a[i].p.hdr) == k
    ensures ItemsOk(k, Arrive(c, a), l)
    decreases |a|
  {
    if a != [] {
      StepOk(c, a[0].p, a[0].t, l);
      ItemsArrive(k, StepChain(c, a[0].p, a[0].t), a[1..], l);
    }
  }

  /** The touching pairs of a chain are the fragments that bridged a gap. */
  lemma {:induction false} ArriveTouching(k: UdpKey, a: seq<Arrival>, l: Lengths, cov: nat -> bool)
    requires Proper(k, a, l, cov)
    ensures ArrivedAs(k, a, Arrive([], a), l, cov)
  {
    if a != [] {
      var n := |a| - 1;
      LastArrival([], a);
      ProperPrefix(k, a, l, cov);
      ArriveTouching(k, a[..n], l, cov);
      ArriveClear(k, a[..n], l, a[n].p);
      ArriveMore(k, a[..n], a[n], Arrive([], a[..n]), l, cov);
    }
  }

  lemma ProperPrefix(k: UdpKey, a: seq<Arrival>, l: Lengths, cov: nat -> bool)
    requires a != [] && Proper(k, a, l, cov)
    ensures var n := |a| - 1;
      Proper(k, a[..n], l, cov) && PacketOk(a[n].p, l) && forall i :: 0 <= i < n ==> Disjoint(a[..n][i].p, a[n].p)
  {}

  lemma ArriveMore(k: UdpKey, b: seq<Arrival>, x: Arrival, c: seq<UdpItem>, l: Lengths, cov: nat -> bool)
    requires ArrivedAs(k, b, c, l, cov) && AllClear(c, x.p) && PacketOk(x.p, l) && KeyOf(x.p.hdr) == k
    requires Fitting(cov, l) && PacketWithin(cov, x.p) && forall i :: 0 <= i < |b| ==> PacketOk(b[i].p, l)
    ensures ArrivedAs(k, b + [x], StepChain(c, x.p, x.t), l, cov)
  {
    NeverRefused(c, x.p, l, cov);
    StepOk(c, x.p, x.t, l);
    StepSeparate(c, x.p, x.t, l);
    StepWithin(c, x.p, x.t, l, cov);
    StepMadeOf(c, b, x.p, x.t, l);
    MoreBridges(k, b, x, c, l, cov);
  }

  lemma MoreBridges(k: UdpKey, b: seq<Arrival>, x: Arrival, c: seq<UdpItem>, l: Lengths, cov: nat -> bool)
    requires ArrivedAs(k, b, c, l, cov) && AllClear(c, x.p) && PacketOk(x.p, l) && KeyOf(x.p.hdr) == k
    requires Fitting(cov, l) && PacketWithin(cov, x.p) && forall i :: 0 <= i < |b| ==> PacketOk(b[i].p, l)
    ensures Touching(StepChain(c, x.p, x.t)) == Bridges(b + [x])
  {
    StepTouching(c, x.p, x.t, l, cov);
    BehindArrived(c, b, x.p, l);
    InFrontArrived(c, b, x.p, l);
    assert (b + [x])[..|b|] == b;
  }

  /** The merges a flush makes of one flow: one for each fragment that bridged a gap when
      it arrived. */
  lemma BridgesMerged(k: UdpKey, a: seq<Arrival>, l: Lengths, ts: nat)
    requires Fragments(k, a, l) && RunsFit(a, l) && forall i :: 0 <= i < |a| ==> a[i].t <= ts
    ensures Swallowed(Arrive([], a)) == Bridges(a)
  {
    forall i | 0 <= i < |a| ensures PacketWithin(Cover(a), a[i].p) {
      assert forall x: nat :: At(a[i].p, x) ==> Covers(a, x);
    }
    ArriveTouching(k, a, l, Cover(a));
    ArriveKeeps(k, [], a, l, ts);
    SwallowsTouching(k, Arrive([], a), l, ts, Cover(a));
  }
}
