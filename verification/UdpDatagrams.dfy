/**
  The law UDP reassembly is for: the fragments of a datagram, in whatever order they
  arrive, leave the table as the maximal contiguous runs of their bytes, and a
  complete datagram leaves it as one packet.
 */
module UdpDatagrams {
  import opened Basics
  import opened Packets
  import opened FlowTable
  import opened FlushLoop
  import opened Udp
  import opened UdpLaws
  import opened UdpOrder
  import opened Runs

  datatype Arrival = Arrival(p: Mbuf, t: nat)

  function Arrive(c: seq<UdpItem>, a: seq<Arrival>): seq<UdpItem>
    decreases |a|
  {
    if a == [] then c else Arrive(StepChain(c, a[0].p, a[0].t), a[1..])
  }

  lemma {:induction false} ArriveConcat(c: seq<UdpItem>, a: seq<Arrival>, b: seq<Arrival>)
    ensures Arrive(c, a + b) == Arrive(Arrive(c, a), b)
    decreases |a|
  {
    if a == [] {
      assert a + b == b;
    } else {
      assert (a + b)[1..] == a[1..] + b;
      ArriveConcat(StepChain(c, a[0].p, a[0].t), a[1..], b);
    }
  }

  lemma ArriveOne(c: seq<UdpItem>, x: Arrival)
    ensures Arrive(c, [x]) == StepChain(c, x.p, x.t)
  {
    assert [x][1..] == [];
  }

  lemma ArriveMoreOne(c: seq<UdpItem>, a: seq<Arrival>, x: Arrival)
    ensures Arrive(c, a + [x]) == StepChain(Arrive(c, a), x.p, x.t)
  {
    ArriveConcat(c, a, [x]);
    ArriveOne(Arrive(c, a), x);
  }

  ghost function ArrivalUnits(a: seq<Arrival>): multiset<Unit<UdpKey>> {
    if a == [] then multiset{} else PacketUnits(a[0].p) + ArrivalUnits(a[1..])
  }

  /** Fragments of flow `k` that do not overlap. */
  ghost predicate Fragments(k: UdpKey, a: seq<Arrival>, l: Lengths) {
    && (forall i :: 0 <= i < |a| ==> PacketOk(a[i].p, l) && KeyOf(a[i].p.hdr) == k)
    && (forall i, j :: 0 <= i < j < |a| ==> Disjoint(a[i].p, a[j].p))
  }

  predicate At(p: Mbuf, x: nat) { FragOffset(p.hdr) <= x < FragOffset(p.hdr) + |Bytes(p)| }

  /** Position `x` of the datagram has arrived. */
  ghost predicate Covers(a: seq<Arrival>, x: nat) { exists i :: 0 <= i < |a| && At(a[i].p, x) }

  ghost function Cover(a: seq<Arrival>): nat -> bool { (x: nat) => Covers(a, x) }

  /** Each contiguous run of the bytes that arrived fits one IPv4 packet. */
  ghost predicate RunsFit(a: seq<Arrival>, l: Lengths) { Fitting(Cover(a), l) }

  predicate AnyLast(c: seq<UdpItem>) { c != [] && (c[0].isLastFrag || AnyLast(c[1..])) }

  predicate AnyLastArrived(a: seq<Arrival>) { a != [] && (!a[0].p.hdr.mf || AnyLastArrived(a[1..])) }

  lemma {:induction false} AnyLastConcat(a: seq<UdpItem>, b: seq<UdpItem>)
    ensures AnyLast(a + b) <==> AnyLast(a) || AnyLast(b)
  {
    if a == [] {
      assert a + b == b;
    } else {
      assert (a + b)[1..] == a[1..] + b;
      AnyLastConcat(a[1..], b);
    }
  }

  lemma AnyLastAt(c: seq<UdpItem>, i: nat, mid: seq<UdpItem>)
    requires i <= |c|
    ensures AnyLast(c[..i] + mid + c[i..]) <==> AnyLast(c) || AnyLast(mid)
    ensures i < |c| ==> (AnyLast(c[..i] + mid + c[i + 1..]) <==> AnyLast(c[..i]) || AnyLast(mid) || AnyLast(c[i + 1..]))
    ensures i < |c| ==> (AnyLast(c) <==> AnyLast(c[..i]) || c[i].isLastFrag || AnyLast(c[i + 1..]))
  {
    AnyLastConcat(c[..i] + mid, c[i..]);
    AnyLastConcat(c[..i], mid);
    AnyLastConcat(c[..i], c[i..]);
    assert c == c[..i] + c[i..];
    if i < |c| {
      AnyLastConcat(c[..i] + mid, c[i + 1..]);
      assert c[i..][1..] == c[i + 1..];
    }
  }

  lemma StepDue(c: seq<UdpItem>, p: Mbuf, t: nat, ts: nat)
    requires t <= ts && AllDue(c, ts)
    ensures AllDue(StepChain(c, p, t), ts)
  {
    DecideStops(c, p, 0);
  }

  lemma StepMarks(c: seq<UdpItem>, p: Mbuf, t: nat, l: Lengths)
    requires ItemsOk(KeyOf(p.hdr), c, l) && PacketOk(p, l)
    ensures AnyLast(StepChain(c, p, t)) <==> AnyLast(c) || !p.hdr.mf
  {
    DecideStops(c, p, 0);
    var s := StopAt(c, p, 0);
    if Merges(c, p) {
      MergeOk(KeyOf(p.hdr), c[s], p, !p.hdr.mf, l);
      LastReplaced(c, s, Merge(c[s], p, Cmp(c[s], p), FragOffset(p.hdr), !p.hdr.mf), !p.hdr.mf);
    } else {
      LastInserted(c, if Refused(c, p) && s == 0 then 1 else s, Fresh(p, t));
    }
  }

  lemma LastReplaced(c: seq<UdpItem>, s: nat, m: UdpItem, last: bool)
    requires s < |c| && m.isLastFrag == (last || c[s].isLastFrag)
    ensures AnyLast(c[s := m]) <==> AnyLast(c) || last
  {
    AnyLastAt(c, s, [m]);
    assert c[s := m] == c[..s] + [m] + c[s + 1..];
  }

  lemma LastInserted(c: seq<UdpItem>, at: nat, x: UdpItem)
    requires at <= |c|
    ensures AnyLast(Insert(c, at, x)) <==> AnyLast(c) || x.isLastFrag
  {
    AnyLastAt(c, at, [x]);
    assert Insert(c, at, x) == c[..at] + [x] + c[at..];
  }

  /** Fragments arriving one by one build up items holding exactly their bytes. */
  lemma {:induction false} ArriveKeeps(k: UdpKey, c: seq<UdpItem>, a: seq<Arrival>, l: Lengths, ts: nat)
    requires ItemsOk(k, c, l) && AllDue(c, ts)
    requires forall i :: 0 <= i < |a| ==> PacketOk(a[i].p, l) && KeyOf(a[i].p.hdr) == k && a[i].t <= ts
    ensures var r := Arrive(c, a);
      && ItemsOk(k, r, l) && AllDue(r, ts) && |r| <= |c| + |a|
      && InChain(k, r, ItemUnits) == InChain(k, c, ItemUnits) + ArrivalUnits(a)
    decreases |a|
  {
    if a != [] {
      var p := a[0].p;
      StepOk(c, p, a[0].t, l);
      StepConserves(c, p, a[0].t, l);
      StepDue(c, p, a[0].t, ts);
      StepLength(c, p, a[0].t);
      ArriveKeeps(k, StepChain(c, p, a[0].t), a[1..], l, ts);
    }
  }

  lemma StepLength(c: seq<UdpItem>, p: Mbuf, t: nat)
    ensures |StepChain(c, p, t)| <= |c| + 1
  {
    DecideStops(c, p, 0);
  }

  /** If they do not overlap and their runs fit, the items stay apart. */
  lemma {:induction false} ArriveOk(k: UdpKey, c: seq<UdpItem>, a: seq<Arrival>, l: Lengths, cov: nat -> bool)
    requires ItemsOk(k, c, l) && Separate(c) && ChainWithin(cov, c) && Fitting(cov, l) && Fragments(k, a, l)
    requires forall i :: 0 <= i < |a| ==> AllClear(c, a[i].p) && PacketWithin(cov, a[i].p)
    ensures var r := Arrive(c, a);
      && Separate(r) && ChainWithin(cov, r) && (AnyLast(r) <==> AnyLast(c) || AnyLastArrived(a))
    decreases |a|
  {
    if a != [] {
      var p, c' := a[0].p, StepChain(c, a[0].p, a[0].t);
      NeverRefused(c, p, l, cov);
      StepOk(c, p, a[0].t, l);
      StepSeparate(c, p, a[0].t, l);
      StepWithin(c, p, a[0].t, l, cov);
      StepMarks(c, p, a[0].t, l);
      FragmentsRest(k, c, a, l);
      ArriveOk(k, c', a[1..], l, cov);
    }
  }

  lemma FragmentsRest(k: UdpKey, c: seq<UdpItem>, a: seq<Arrival>, l: Lengths)
    requires a != [] && ItemsOk(k, c, l) && Fragments(k, a, l) && forall i :: 0 <= i < |a| ==> AllClear(c, a[i].p)
    ensures Fragments(k, a[1..], l)
    ensures forall i :: 0 <= i < |a[1..]| ==> AllClear(StepChain(c, a[0].p, a[0].t), a[1..][i].p)
  {
    forall i, j | 0 <= i < j < |a[1..]| ensures Disjoint(a[1..][i].p, a[1..][j].p) {
      assert Disjoint(a[i + 1].p, a[j + 1].p);
    }
    forall i | 0 <= i < |a[1..]| ensures AllClear(StepChain(c, a[0].p, a[0].t), a[1..][i].p) {
      assert a[1..][i] == a[i + 1] && Disjoint(a[0].p, a[i + 1].p);
      StepClear(c, a[0].p, a[0].t, l, a[i + 1].p);
    }
  }

  /** All of it from the first fragment of the flow on. */
  lemma AllArrived(k: UdpKey, a: seq<Arrival>, l: Lengths)
    requires Fragments(k, a, l) && RunsFit(a, l)
    ensures var r := Arrive([], a);
      Separate(r) && ChainWithin(Cover(a), r) && (AnyLast(r) <==> AnyLastArrived(a))
  {
    forall i | 0 <= i < |a| ensures AllClear([], a[i].p) && PacketWithin(Cover(a), a[i].p) {
      assert forall x: nat :: At(a[i].p, x) ==> Covers(a, x);
    }
    ArriveOk(k, [], a, l, Cover(a));
  }

  // ----- Flushing separate items

  /** Between any two items there is a gap. */
  ghost predicate Gapped(c: seq<UdpItem>) {
    forall i, j :: 0 <= i < j < |c| ==> End(c[i]) < c[j].fragOffset
  }

  /** Separate items of one flow, all due, whose runs fit. */
  ghost predicate Flushable(k: UdpKey, c: seq<UdpItem>, ts: nat, l: Lengths, cov: nat -> bool) {
    ItemsOk(k, c, l) && Separate(c) && AllDue(c, ts) && ChainWithin(cov, c) && Fitting(cov, l)
  }

  /** One round of the merge loop on such items stops only at a gap, and otherwise keeps
      them separate. */
  lemma FuseRound(k: UdpKey, c: seq<UdpItem>, l: Lengths, ts: nat, cov: nat -> bool)
    requires |c| > 1 && Flushable(k, c, ts, l, cov)
    ensures var c' := FuseOnce(c);
      || (c' == c && End(c[0]) < c[1].fragOffset)
      || (|c'| == |c| - 1 && End(c[0]) == c[1].fragOffset && c' == [c'[0]] + c[2..] && End(c'[0]) == End(c[1])
          && SameItems(k, c, c', l, ts, cov))
  {
    var p := c[1].firstseg;
    assert ItemOk(k, c[0], l) && ItemOk(k, c[1], l) && End(c[0]) <= c[1].fragOffset;
    assert FragOffset(p.hdr) == c[1].fragOffset;
    NeighborMeans(k, c[0], p, l);
    NeighborFits(k, c[0], p, l, cov);
    if Cmp(c[0], p) != 0 {
      MergeOk(k, c[0], p, c[1].isLastFrag, l);
      MergeWithin(k, c[0], p, c[1].isLastFrag, l, cov);
      FusedSame(k, c, FuseOnce(c)[0], l, ts, cov);
    }
  }

  /** What fusing keeps. */
  ghost predicate SameItems(k: UdpKey, c: seq<UdpItem>, m: seq<UdpItem>, l: Lengths, ts: nat, cov: nat -> bool) {
    && Flushable(k, m, ts, l, cov)
    && (AnyLast(m) <==> AnyLast(c)) && c != [] && m != [] && m[0].fragOffset == c[0].fragOffset
  }

  lemma FusedSame(k: UdpKey, c: seq<UdpItem>, m: UdpItem, l: Lengths, ts: nat, cov: nat -> bool)
    requires |c| > 1 && Flushable(k, c, ts, l, cov) && Within(cov, m.fragOffset, End(m))
    requires ItemOk(k, m, l) && m.startTime == c[0].startTime && m.fragOffset == c[0].fragOffset && End(m) == End(c[1])
    requires m.isLastFrag == (c[1].isLastFrag || c[0].isLastFrag)
    ensures SameItems(k, c, [m] + c[2..], l, ts, cov)
  {
    var c' := [m] + c[2..];
    assert forall i :: 1 <= i < |c'| ==> c'[i] == c[i + 1];
    assert c'[1..] == c[1..][1..];
  }

  lemma {:induction false} FuseGap(k: UdpKey, c: seq<UdpItem>, l: Lengths, ts: nat, cov: nat -> bool)
    requires c != [] && Flushable(k, c, ts, l, cov)
    ensures SameItems(k, c, Fuse(c), l, ts, cov)
    ensures |Fuse(c)| > 1 ==> End(Fuse(c)[0]) < Fuse(c)[1].fragOffset
    decreases |c|
  {
    if |c| > 1 {
      FuseRound(k, c, l, ts, cov);
      if FuseOnce(c) != c {
        FuseGap(k, FuseOnce(c), l, ts, cov);
      }
    }
  }

  lemma FuseFlushable(k: UdpKey, c: seq<UdpItem>, ts: nat, l: Lengths, cov: nat -> bool)
    requires c != [] && Flushable(k, c, ts, l, cov)
    ensures Flushable(k, Fuse(c)[1..], ts, l, cov) && c[0].startTime <= ts
  {
    FuseGap(k, c, l, ts, cov);
    TailOk(k, c, Fuse(c), l, ts, cov);
  }

  lemma FuseOut(k: UdpKey, c: seq<UdpItem>, r: seq<UdpItem>, ts: nat, l: Lengths, cov: nat -> bool)
    requires c != [] && Flushable(k, c, ts, l, cov) && GappedOut(k, Fuse(c)[1..], r, l)
    ensures GappedOut(k, c, [Fuse(c)[0]] + r, l)
  {
    FuseGap(k, c, l, ts, cov);
    GappedMore(k, c, Fuse(c), r, l, ts, cov);
  }

  /** One round of a flush, for a chain `c` of which `inv` holds and any output `o` for the
      rest of which `q` holds. */
  ghost predicate Round(inv: seq<UdpItem> -> bool, q: (seq<UdpItem>, seq<UdpItem>) -> bool, ts: nat, c: seq<UdpItem>) {
    c != [] && inv(c) ==>
      && c[0].startTime <= ts && inv(Fuse(c)[1..])
      && forall o :: q(Fuse(c)[1..], o) ==> q(c, [Fuse(c)[0]] + o)
  }

  lemma RoundOut(inv: seq<UdpItem> -> bool, q: (seq<UdpItem>, seq<UdpItem>) -> bool, c: seq<UdpItem>, ts: nat,
                 room: nat)
    returns (rest: seq<UdpItem>)
    requires Round(inv, q, ts, c) && c != [] && inv(c) && room > 0
    ensures |rest| < |c| && inv(rest)
    ensures q(rest, DrainChain(rest, ts, room - 1).out) ==> q(c, DrainChain(c, ts, room).out)
  {
    rest := Fuse(c)[1..];
    DrainUnfold(c, ts, room);
  }

  /** What every round keeps holds of a whole flush. */
  lemma {:induction false} DrainInduction(inv: seq<UdpItem> -> bool, q: (seq<UdpItem>, seq<UdpItem>) -> bool,
                                          c: seq<UdpItem>, ts: nat, room: nat)
    requires inv(c) && |c| <= room && q([], []) && forall m :: Round(inv, q, ts, m)
    ensures q(c, DrainChain(c, ts, room).out)
    decreases |c|
  {
    if c != [] {
      var rest := RoundOut(inv, q, c, ts, room);
      DrainInduction(inv, q, rest, ts, room - 1);
    }
  }

  /** Flushing separate items that are all due leaves none, and puts out their bytes as
      items with gaps between them. */
  lemma DrainGapped(k: UdpKey, c: seq<UdpItem>, ts: nat, room: nat, l: Lengths, cov: nat -> bool)
    requires Flushable(k, c, ts, l, cov) && |c| <= room
    ensures GappedOut(k, c, DrainChain(c, ts, room).out, l)
  {
    var inv := (m: seq<UdpItem>) => Flushable(k, m, ts, l, cov);
    var q := (m: seq<UdpItem>, o: seq<UdpItem>) => GappedOut(k, m, o, l);
    forall m ensures Round(inv, q, ts, m) {
      if m != [] && inv(m) {
        FuseFlushable(k, m, ts, l, cov);
        forall o | q(Fuse(m)[1..], o) ensures q(m, [Fuse(m)[0]] + o) {
          FuseOut(k, m, o, ts, l, cov);
        }
      }
    }
    DrainInduction(inv, q, c, ts, room);
  }

  lemma DrainUnfold(c: seq<UdpItem>, ts: nat, room: nat)
    requires room > 0 && c != [] && c[0].startTime <= ts
    ensures var r := DrainChain(Fuse(c)[1..], ts, room - 1);
      DrainChain(c, ts, room) == Drain([Fuse(c)[0]] + r.out, r.rest)
  {}

  /** The items `o` put out for the chain `c`. */
  ghost predicate GappedOut(k: UdpKey, c: seq<UdpItem>, o: seq<UdpItem>, l: Lengths) {
    && Gapped(o) && ItemsOk(k, o, l) && (AnyLast(o) <==> AnyLast(c)) && (c == [] <==> o == [])
    && (c != [] ==> o[0].fragOffset == c[0].fragOffset)
  }

  lemma TailOk(k: UdpKey, c: seq<UdpItem>, m: seq<UdpItem>, l: Lengths, ts: nat, cov: nat -> bool)
    requires SameItems(k, c, m, l, ts, cov)
    ensures Flushable(k, m[1..], ts, l, cov)
  {}

  lemma GappedMore(k: UdpKey, c: seq<UdpItem>, m: seq<UdpItem>, r: seq<UdpItem>, l: Lengths, ts: nat, cov: nat -> bool)
    requires SameItems(k, c, m, l, ts, cov) && GappedOut(k, m[1..], r, l)
    requires |m| > 1 ==> End(m[0]) < m[1].fragOffset
    ensures GappedOut(k, c, [m[0]] + r, l)
  {
    var o := [m[0]] + r;
    assert o[1..] == r;
    assert forall i :: 1 <= i < |o| ==> o[i] == r[i - 1];
    forall i, j | 0 <= i < j < |o| ensures End(o[i]) < o[j].fragOffset {
      if i == 0 && j > 1 {
        assert End(r[0]) < r[j - 1].fragOffset;
      }
    }
  }

  // ----- The packets put out

  function RunOf(m: Mbuf): Run { Run(FragOffset(m.hdr), Bytes(m)) }

  function RunsOf(ms: seq<Mbuf>): seq<Run> {
    seq(|ms|, i requires 0 <= i < |ms| => RunOf(ms[i]))
  }

  lemma {:induction false} RunsSum(k: UdpKey, o: seq<UdpItem>, l: Lengths)
    requires ItemsOk(k, o, l)
    ensures SumRuns(k, RunsOf(Finished(o, Finish))) == InChain(k, o, ItemUnits)
  {
    if o != [] {
      assert ItemOk(k, o[0], l);
      FinishOk(k, o[0], l);
      assert RunsOf(Finished(o, Finish))[1..] == RunsOf(Finished(o[1..], Finish));
      RunsSum(k, o[1..], l);
    }
  }

  lemma RunsMaximal(k: UdpKey, o: seq<UdpItem>, l: Lengths)
    requires ItemsOk(k, o, l) && Gapped(o)
    ensures Maximal(RunsOf(Finished(o, Finish)))
  {
    forall i | 0 <= i < |o|
      ensures var r := RunOf(Finish(o[i]));
        r.at == o[i].fragOffset && r.bytes == Bytes(o[i].firstseg) && r.bytes != [] {
      assert ItemOk(k, o[i], l);
      FinishOk(k, o[i], l);
    }
  }

  /** The packets that flow `k` leaves the table as, once its fragments `a` arrived. */
  function Outcome(a: seq<Arrival>, ts: nat, room: nat): seq<Mbuf> {
    Finished(DrainChain(Arrive([], a), ts, room).out, Finish)
  }

  /** A flush of fragments that do not overlap puts out all their bytes and keeps nothing;
      and it puts them out as the maximal contiguous runs, in increasing offset, if and
      only if each such run fits one IPv4 packet. */
  lemma FlushedRuns(k: UdpKey, a: seq<Arrival>, l: Lengths, ts: nat, room: nat)
    requires Fragments(k, a, l) && |a| <= room && forall i :: 0 <= i < |a| ==> a[i].t <= ts
    ensures var rs := RunsOf(Outcome(a, ts, room));
      SumRuns(k, rs) == ArrivalUnits(a) && (Maximal(rs) <==> RunsFit(a, l))
    ensures DrainChain(Arrive([], a), ts, room).rest == []
  {
    ArriveKeeps(k, [], a, l, ts);
    var c := Arrive([], a);
    DrainEmpties(c, ts, room);
    FlushKeepsUnits(k, c, ts, room, l);
    var o := DrainChain(c, ts, room).out;
    RunsSum(k, o, l);
    if RunsFit(a, l) {
      AllArrived(k, a, l);
      DrainGapped(k, c, ts, room, l, Cover(a));
      RunsMaximal(k, o, l);
    }
    if Maximal(RunsOf(Outcome(a, ts, room))) {
      MaximalFit(k, a, o, l);
    }
  }

  lemma FlushKeepsUnits(k: UdpKey, c: seq<UdpItem>, ts: nat, room: nat, l: Lengths)
    requires ItemsOk(k, c, l) && DrainChain(c, ts, room).rest == []
    ensures InChain(k, DrainChain(c, ts, room).out, ItemUnits) == InChain(k, c, ItemUnits)
    ensures ItemsOk(k, DrainChain(c, ts, room).out, l)
  {
    var lens := _ => Some(l);
    var o := DrainChain(c, ts, room).out;
    DrainOk(k, c, ts, room, lens);
    InChainBy(k, c, lens);
    InChainBy(k, o, lens);
    forall i | 0 <= i < |o| ensures ItemOk(k, o[i], l) {
      assert OkBy(lens)(k, o[i]);
    }
  }

  // ----- Positions and bytes

  /** A byte for position `x` is among `us`. */
  ghost predicate Occupied(us: multiset<Unit<UdpKey>>, x: nat) { exists u :: u in us && u.at == x }

  lemma PacketAt(p: Mbuf, l: Lengths, x: nat)
    requires PacketOk(p, l)
    ensures At(p, x) <==> Occupied(PacketUnits(p), x)
  {
    var k, off := KeyOf(p.hdr), FragOffset(p.hdr);
    if At(p, x) {
      UnitIn(k, off, Bytes(p), Unit(k, x, Bytes(p)[x - off]));
    }
    if u :| u in PacketUnits(p) && u.at == x {
      UnitIn(k, off, Bytes(p), u);
    }
  }

  /** A position has arrived if and only if a byte for it has. */
  lemma {:induction false} CoversUnit(k: UdpKey, a: seq<Arrival>, l: Lengths, x: nat)
    requires forall i :: 0 <= i < |a| ==> PacketOk(a[i].p, l)
    ensures Covers(a, x) <==> Occupied(ArrivalUnits(a), x)
    decreases |a|
  {
    if a != [] {
      PacketAt(a[0].p, l, x);
      CoversUnit(k, a[1..], l, x);
      CoversFirst(a, x);
      OccupiedSum(PacketUnits(a[0].p), ArrivalUnits(a[1..]), x);
    }
  }

  lemma CoversFirst(a: seq<Arrival>, x: nat)
    requires a != []
    ensures Covers(a, x) <==> At(a[0].p, x) || Covers(a[1..], x)
  {
    assert forall i :: 1 <= i < |a| ==> a[i] == a[1..][i - 1];
  }

  lemma OccupiedSum(a: multiset<Unit<UdpKey>>, b: multiset<Unit<UdpKey>>, x: nat)
    ensures Occupied(a + b, x) <==> Occupied(a, x) || Occupied(b, x)
  {
    if u :| u in a && u.at == x {
      assert u in a + b;
    }
    if u :| u in b && u.at == x {
      assert u in a + b;
    }
  }

  /** Arrivals with the same bytes cover the same positions. */
  lemma SameCover(k: UdpKey, a: seq<Arrival>, b: seq<Arrival>, l: Lengths)
    requires Fragments(k, a, l) && Fragments(k, b, l) && ArrivalUnits(a) == ArrivalUnits(b)
    ensures RunsFit(a, l) ==> RunsFit(b, l)
  {
    forall lo: nat, hi: nat | lo <= hi && Within(Cover(b), lo, hi) ensures Within(Cover(a), lo, hi) {
      forall x: nat | lo <= x < hi ensures Cover(a)(x) {
        assert Cover(b)(x);
        CoversUnit(k, a, l, x);
        CoversUnit(k, b, l, x);
      }
    }
  }

  /** Where the runs put out lie. */
  lemma RunIsWhole(k: UdpKey, a: seq<Arrival>, rs: seq<Run>, l: Lengths, lo: nat, hi: nat) returns (i: nat)
    requires Fragments(k, a, l) && Maximal(rs) && SumRuns(k, rs) == ArrivalUnits(a)
    requires lo < hi && Within(Cover(a), lo, hi)
    ensures i < |rs| && rs[i].at <= lo && hi <= rs[i].at + |rs[i].bytes|
  {
    assert Cover(a)(lo);
    CoversUnit(k, a, l, lo);
    i := RunAt(k, rs, lo);
    var end := rs[i].at + |rs[i].bytes|;
    if end < hi {
      assert Cover(a)(end);
      CoversUnit(k, a, l, end);
      var j := RunAt(k, rs, end);
    }
  }

  /** Runs that are put out fit: nothing longer than one packet is. */
  lemma MaximalFit(k: UdpKey, a: seq<Arrival>, o: seq<UdpItem>, l: Lengths)
    requires Fragments(k, a, l) && ItemsOk(k, o, l)
    requires var rs := RunsOf(Finished(o, Finish)); Maximal(rs) && SumRuns(k, rs) == ArrivalUnits(a)
    ensures RunsFit(a, l)
  {
    var rs := RunsOf(Finished(o, Finish));
    forall lo: nat, hi: nat | lo <= hi && Within(Cover(a), lo, hi)
      ensures Overhead(l) + (hi - lo) <= MAX_IP_PKT_LENGTH {
      if lo < hi {
        var i := RunIsWhole(k, a, rs, l, lo, hi);
        assert ItemOk(k, o[i], l);
        FinishOk(k, o[i], l);
        assert rs[i] == RunOf(Finish(o[i]));
      }
    }
  }

  /** The order of arrival does not matter, nor how the bytes were cut into fragments. */
  lemma OrderIndependence(k: UdpKey, a: seq<Arrival>, b: seq<Arrival>, l: Lengths, ts: nat, room: nat)
    requires Fragments(k, a, l) && |a| <= room && forall i :: 0 <= i < |a| ==> a[i].t <= ts
    requires Fragments(k, b, l) && |b| <= room && forall i :: 0 <= i < |b| ==> b[i].t <= ts
    requires RunsFit(a, l) && ArrivalUnits(a) == ArrivalUnits(b)
    ensures RunsOf(Outcome(a, ts, room)) == RunsOf(Outcome(b, ts, room))
  {
    FlushedRuns(k, a, l, ts, room);
    FlushedRuns(k, b, l, ts, room);
    SameCover(k, a, b, l);
    SameRuns(k, RunsOf(Outcome(a, ts, room)), RunsOf(Outcome(b, ts, room)));
  }

  /** The packets of arrivals, without their times. */
  function PacketsIn(a: seq<Arrival>): seq<Mbuf> { seq(|a|, i requires 0 <= i < |a| => a[i].p) }

  ghost function UnitsOf(): Mbuf -> multiset<Unit<UdpKey>> { (m: Mbuf) => PacketUnits(m) }

  lemma {:induction false} ArrivalSum(a: seq<Arrival>)
    ensures ArrivalUnits(a) == Sum(PacketsIn(a), UnitsOf())
    decreases |a|
  {
    if a != [] {
      assert PacketsIn(a)[1..] == PacketsIn(a[1..]);
      ArrivalSum(a[1..]);
    }
  }

  /** Any two arrival orders of the same fragments leave the same packets. */
  lemma AnyOrder(k: UdpKey, a: seq<Arrival>, b: seq<Arrival>, l: Lengths, ts: nat, room: nat)
    requires Fragments(k, a, l) && |a| <= room && forall i :: 0 <= i < |a| ==> a[i].t <= ts
    requires Fragments(k, b, l) && forall i :: 0 <= i < |b| ==> b[i].t <= ts
    requires RunsFit(a, l) && multiset(PacketsIn(a)) == multiset(PacketsIn(b))
    ensures RunsOf(Outcome(a, ts, room)) == RunsOf(Outcome(b, ts, room))
  {
    ArrivalSum(a);
    ArrivalSum(b);
    SumPermuted(PacketsIn(a), PacketsIn(b), UnitsOf());
    assert |a| == |multiset(PacketsIn(a))| == |multiset(PacketsIn(b))| == |b|;
    OrderIndependence(k, a, b, l, ts, room);
  }

  /** A complete datagram that fits one IPv4 packet comes out as one, at offset 0 with all
      its bytes, and with More Fragments clear exactly if the last fragment was among them. */
  lemma CompleteDatagram(k: UdpKey, a: seq<Arrival>, datagram: seq<byte>, l: Lengths, ts: nat, room: nat)
    requires Fragments(k, a, l) && |a| <= room && forall i :: 0 <= i < |a| ==> a[i].t <= ts
    requires datagram != [] && ArrivalUnits(a) == Units(k, 0, datagram)
    requires Overhead(l) + |datagram| <= MAX_IP_PKT_LENGTH
    ensures var o := Outcome(a, ts, room);
      && |o| == 1 && RunOf(o[0]) == Run(0, datagram) && KeyOf(o[0].hdr) == k
      && (o[0].hdr.mf <==> !AnyLastArrived(a))
  {
    DatagramFits(k, a, datagram, l);
    OneRun(k, a, datagram, l, ts, room);
    ArriveKeeps(k, [], a, l, ts);
    AllArrived(k, a, l);
    DrainGapped(k, Arrive([], a), ts, room, l, Cover(a));
    OnlyOut(k, Arrive([], a), DrainChain(Arrive([], a), ts, room).out, l);
  }

  lemma OnlyOut(k: UdpKey, c: seq<UdpItem>, o: seq<UdpItem>, l: Lengths)
    requires GappedOut(k, c, o, l) && |o| == 1
    ensures KeyOf(Finish(o[0]).hdr) == k && (Finish(o[0]).hdr.mf <==> !AnyLast(c))
  {
    assert ItemOk(k, o[0], l) && (AnyLast(o) <==> o[0].isLastFrag || AnyLast(o[1..]));
    FinishOk(k, o[0], l);
  }

  lemma DatagramFits(k: UdpKey, a: seq<Arrival>, datagram: seq<byte>, l: Lengths)
    requires Fragments(k, a, l) && ArrivalUnits(a) == Units(k, 0, datagram)
    requires Overhead(l) + |datagram| <= MAX_IP_PKT_LENGTH
    ensures RunsFit(a, l)
  {
    forall lo: nat, hi: nat | lo <= hi && Within(Cover(a), lo, hi)
      ensures Overhead(l) + (hi - lo) <= MAX_IP_PKT_LENGTH {
      if lo < hi {
        assert Cover(a)(hi - 1);
        CoversUnit(k, a, l, hi - 1);
        var u :| u in Units(k, 0, datagram) && u.at == hi - 1;
        UnitIn(k, 0, datagram, u);
      }
    }
  }

  lemma OneRun(k: UdpKey, a: seq<Arrival>, datagram: seq<byte>, l: Lengths, ts: nat, room: nat)
    requires Fragments(k, a, l) && |a| <= room && forall i :: 0 <= i < |a| ==> a[i].t <= ts
    requires RunsFit(a, l) && |datagram| <= MAX_IP_PKT_LENGTH
    requires datagram != [] && ArrivalUnits(a) == Units(k, 0, datagram)
    ensures var o := Outcome(a, ts, room); |o| == 1 && RunOf(o[0]) == Run(0, datagram)
  {
    FlushedRuns(k, a, l, ts, room);
    var whole := [Run(0, datagram)];
    assert SumRuns(k, whole) == Units(k, 0, datagram);
    SameRuns(k, RunsOf(Outcome(a, ts, room)), whole);
    assert RunsOf(Outcome(a, ts, room))[0] == RunOf(Outcome(a, ts, room)[0]);
  }
}
