/**
  What UDP reassembly is for, told by the fields and the data of the packets alone: which
  packets a table takes, and that the fragments of a datagram come out as the datagram.
 */
module UdpDelivery {
  import opened Basics
  import opened Packets
  import opened FlowTable
  import opened FlushLoop
  import opened Udp
  import opened UdpLaws
  import opened UdpOrder
  import opened UdpDatagrams
  import opened UdpSessions
  import opened UdpFlows
  import Runs

  /** The header bytes in front of the payload. */
  function Front(l: Lengths): nat { l.outerL2 + l.outerL3 + l.l2 + l.l3 }

  /** With a free slot, a table takes exactly the IPv4 fragments that have payload:
      those with More Fragments set or an offset other than 0. */
  lemma TakenIff(v: UdpView, p: Mbuf, t: nat)
    requires Wf(v) && Total(v) < |v|
    ensures Accept(v, p, t).ret != -1 <==> (p.hdr.mf || p.hdr.fragUnits != 0) && |p.data| > Front(p.lens)
  {
    AcceptWf(v, p, t);
  }

  /** Whatever the table, other packets are handed back, and leave it as it is. */
  lemma NeverTaken(v: UdpView, p: Mbuf, t: nat)
    requires (!p.hdr.mf && p.hdr.fragUnits == 0) || |p.data| <= Front(p.lens)
    ensures Accept(v, p, t) == Stored(v, -1)
  {}

  /** A neighbour is merged exactly if the outer IPv4 packet stays within 65535 bytes. */
  lemma MergeLimit(k: UdpKey, it: UdpItem, p: Mbuf, cmp: int, l: Lengths)
    requires ItemOk(k, it, l) && PacketOk(p, l)
    ensures CanMerge(it, p, cmp) <==> |it.firstseg.data| + |p.data| - Front(l) - l.outerL2 <= 65535
  {}

  // ----- The fragments of a datagram

  /** The packets `cut` are the bytes `d` from offset `at` of a datagram on, in order: each
      starts where the one before it ends, and More Fragments is clear on the last only. */
  predicate Pieces(cut: seq<Mbuf>, at: nat, d: seq<byte>) {
    if cut == [] then d == []
    else
      var p, n := cut[0], |cut[0].data| - Front(cut[0].lens);
      && 8 * p.hdr.fragUnits == at && p.hdr.mf == (|cut| > 1)
      && 0 < n <= |d| && p.data[Front(p.lens)..] == d[..n] && Pieces(cut[1..], at + n, d[n..])
  }

  /** The datagram `d` of flow `k` in two or more fragments with the header lengths `l`, short
      enough for one IPv4 packet. */
  ghost predicate Fragmented(k: UdpKey, cut: seq<Mbuf>, d: seq<byte>, l: Lengths) {
    && |cut| >= 2 && Pieces(cut, 0, d) && l.outerL2 + l.outerL3 > 0
    && l.outerL3 + l.l2 + l.l3 + |d| <= MAX_IP_PKT_LENGTH
    && forall p | p in cut :: KeyOf(p.hdr) == k && SameUpToL4(p.lens, l)
  }

  lemma {:induction false} PieceAt(cut: seq<Mbuf>, at: nat, d: seq<byte>, i: nat)
    requires Pieces(cut, at, d) && i < |cut|
    ensures var p := cut[i]; var n := |p.data| - Front(p.lens);
      && 0 < n && at <= 8 * p.hdr.fragUnits && 8 * p.hdr.fragUnits + n <= at + |d|
      && p.hdr.mf == (i < |cut| - 1) && (i > 0 ==> at < 8 * p.hdr.fragUnits)
  {
    if i > 0 {
      var n := |cut[0].data| - Front(cut[0].lens);
      PieceAt(cut[1..], at + n, d[n..], i - 1);
    }
  }

  lemma {:induction false} PiecesApart(cut: seq<Mbuf>, at: nat, d: seq<byte>, i: nat, j: nat)
    requires Pieces(cut, at, d) && i < j < |cut|
    ensures 8 * cut[i].hdr.fragUnits + |cut[i].data| - Front(cut[i].lens) <= 8 * cut[j].hdr.fragUnits
    ensures cut[i] != cut[j]
  {
    var n := |cut[0].data| - Front(cut[0].lens);
    PieceAt(cut, at, d, i);
    if i == 0 {
      PieceAt(cut[1..], at + n, d[n..], j - 1);
    } else {
      PiecesApart(cut[1..], at + n, d[n..], i - 1, j - 1);
    }
  }

  lemma {:induction false} PieceUnits(k: UdpKey, cut: seq<Mbuf>, at: nat, d: seq<byte>)
    requires Pieces(cut, at, d) && forall i :: 0 <= i < |cut| ==> KeyOf(cut[i].hdr) == k
    ensures Sum(cut, UnitsOf()) == Units(k, at, d)
    decreases |cut|
  {
    if cut != [] {
      var first, rest := FirstPiece(k, cut, at, d);
      PieceUnits(k, cut[1..], at + |first|, rest);
      UnitsRow(k, at, first, at + |first|, rest, d);
      SumFirst(cut, Units(k, at, first), Units(k, at + |first|, rest));
    }
  }

  lemma FirstPiece(k: UdpKey, cut: seq<Mbuf>, at: nat, d: seq<byte>) returns (first: seq<byte>, rest: seq<byte>)
    requires Pieces(cut, at, d) && cut != [] && KeyOf(cut[0].hdr) == k
    ensures d == first + rest && PacketUnits(cut[0]) == Units(k, at, first) && Pieces(cut[1..], at + |first|, rest)
  {
    var n := |cut[0].data| - Front(cut[0].lens);
    first, rest := d[..n], d[n..];
    assert FragOffset(cut[0].hdr) == at && Bytes(cut[0]) == first;
  }

  lemma SumFirst(ms: seq<Mbuf>, x: multiset<Unit<UdpKey>>, y: multiset<Unit<UdpKey>>)
    requires ms != [] && PacketUnits(ms[0]) == x && Sum(ms[1..], UnitsOf()) == y
    ensures Sum(ms, UnitsOf()) == x + y
  {}

  lemma PieceOk(k: UdpKey, cut: seq<Mbuf>, d: seq<byte>, l: Lengths, p: Mbuf)
    requires Fragmented(k, cut, d, l) && p in cut
    ensures PacketOk(p, l) && KeyOf(p.hdr) == k && !Rejected(p)
  {
    var i :| 0 <= i < |cut| && cut[i] == p;
    PieceAt(cut, 0, d, i);
  }

  // ----- Arrivals in any order

  /** The packets of flow `k` that the events bring. */
  function PacketsOf(es: seq<Event>, k: UdpKey): seq<Mbuf> {
    if es == [] then []
    else (if es[0].Packet? && KeyOf(es[0].p.hdr) == k then [es[0].p] else []) + PacketsOf(es[1..], k)
  }

  /** The flow brings the packets `cut`, in any order and between any other packets and
      flushes. They arrive from time `since` on, and no flush is for items that old. */
  ghost predicate Brings(es: seq<Event>, k: UdpKey, cut: seq<Mbuf>, since: nat, ts: nat) {
    && multiset(PacketsOf(es, k)) == multiset(cut)
    && forall i :: 0 <= i < |es| ==> InTime(es[i], k, since, ts)
  }

  predicate InTime(e: Event, k: UdpKey, since: nat, ts: nat) {
    match e
    case Packet(p, t) => KeyOf(p.hdr) == k ==> since <= t <= ts
    case Timeout(due, room) => due < since
  }

  lemma {:induction false} ArrivalsAre(es: seq<Event>, k: UdpKey, since: nat, ts: nat)
    requires forall p | p in PacketsOf(es, k) :: !Rejected(p)
    requires forall i :: 0 <= i < |es| ==> InTime(es[i], k, since, ts)
    ensures var a := ArrivalsOf(es, k);
      PacketsIn(a) == PacketsOf(es, k) && forall i :: 0 <= i < |a| ==> a[i].t <= ts
  {
    if es != [] {
      assert forall p | p in PacketsOf(es[1..], k) :: p in PacketsOf(es, k);
      ArrivalsAre(es[1..], k, since, ts);
      var x, a := ArrivalOf(es[0], k), ArrivalsOf(es[1..], k);
      assert es[0].Packet? && KeyOf(es[0].p.hdr) == k ==> es[0].p in PacketsOf(es, k);
      assert PacketsIn(x + a) == PacketsIn(x) + PacketsIn(a);
      assert InTime(es[0], k, since, ts);
    }
  }

  lemma {:induction false} LastIn(a: seq<Arrival>, i: nat)
    requires i < |a| && !a[i].p.hdr.mf
    ensures AnyLastArrived(a)
  {
    if i > 0 {
      LastIn(a[1..], i - 1);
    }
  }

  /** Arrivals of the fragments, in any order, are what `CompleteDatagram` speaks of. */
  lemma Arrived(k: UdpKey, a: seq<Arrival>, cut: seq<Mbuf>, d: seq<byte>, l: Lengths)
    requires Fragmented(k, cut, d, l) && multiset(PacketsIn(a)) == multiset(cut)
    ensures Fragments(k, a, l) && |a| == |cut| && d != []
  {
    var ps := PacketsIn(a);
    assert |ps| == |multiset(ps)| == |multiset(cut)| == |cut|;
    forall i | 0 <= i < |a| ensures PacketOk(a[i].p, l) && KeyOf(a[i].p.hdr) == k {
      assert ps[i] in multiset(ps);
      PieceOk(k, cut, d, l, ps[i]);
    }
    forall i, j | 0 <= i < j < |a| ensures Disjoint(a[i].p, a[j].p) {
      TwoArrived(a, cut, d, i, j);
    }
  }

  lemma TwoArrived(a: seq<Arrival>, cut: seq<Mbuf>, d: seq<byte>, i: nat, j: nat)
    requires Pieces(cut, 0, d) && multiset(PacketsIn(a)) == multiset(cut) && i < j < |a|
    ensures Disjoint(a[i].p, a[j].p)
  {
    var ps := PacketsIn(a);
    TwoOf(cut, d, ps, i, j);
    assert ps[i] == a[i].p && ps[j] == a[j].p;
  }

  lemma LastArrived(a: seq<Arrival>, cut: seq<Mbuf>, d: seq<byte>)
    requires Pieces(cut, 0, d) && cut != [] && multiset(PacketsIn(a)) == multiset(cut)
    ensures AnyLastArrived(a)
  {
    var ps, z := PacketsIn(a), cut[|cut| - 1];
    PieceAt(cut, 0, d, |cut| - 1);
    assert z in multiset(ps);
    var i :| 0 <= i < |ps| && ps[i] == z;
    LastIn(a, i);
  }

  lemma ArrivedUnits(k: UdpKey, a: seq<Arrival>, cut: seq<Mbuf>, d: seq<byte>)
    requires Pieces(cut, 0, d) && multiset(PacketsIn(a)) == multiset(cut)
    requires forall i :: 0 <= i < |cut| ==> KeyOf(cut[i].hdr) == k
    ensures ArrivalUnits(a) == Units(k, 0, d)
  {
    ArrivalSum(a);
    SumPermuted(PacketsIn(a), cut, UnitsOf());
    PieceUnits(k, cut, 0, d);
  }

  /** Two packets of a permutation are two pieces. */
  lemma TwoOf(cut: seq<Mbuf>, d: seq<byte>, ps: seq<Mbuf>, i: nat, j: nat)
    requires Pieces(cut, 0, d) && multiset(ps) == multiset(cut) && i < j < |ps|
    ensures Disjoint(ps[i], ps[j])
  {
    assert ps[i] in multiset(ps) && ps[j] in multiset(ps);
    var x :| 0 <= x < |cut| && cut[x] == ps[i];
    var y :| 0 <= y < |cut| && cut[y] == ps[j];
    if x == y {
      Twice(ps, i, j);
      Once(cut, d, x);
    } else if x < y {
      PieceAt(cut, 0, d, x);
      PieceAt(cut, 0, d, y);
      PiecesApart(cut, 0, d, x, y);
    } else {
      PieceAt(cut, 0, d, x);
      PieceAt(cut, 0, d, y);
      PiecesApart(cut, 0, d, y, x);
    }
  }

  lemma Twice<T>(s: seq<T>, i: nat, j: nat)
    requires i < j < |s| && s[i] == s[j]
    ensures multiset(s)[s[i]] >= 2
  {
    assert s == s[..i] + [s[i]] + s[i + 1..j] + [s[j]] + s[j + 1..];
  }

  lemma Once(cut: seq<Mbuf>, d: seq<byte>, x: nat)
    requires Pieces(cut, 0, d) && x < |cut|
    ensures multiset(cut)[cut[x]] == 1
  {
    var a, b := cut[..x], cut[x + 1..];
    assert cut == a + [cut[x]] + b;
    if cut[x] in a {
      var y :| 0 <= y < x && a[y] == cut[x];
      PiecesApart(cut, 0, d, y, x);
    }
    if cut[x] in b {
      var y :| 0 <= y < |b| && b[y] == cut[x];
      PiecesApart(cut, 0, d, x, x + 1 + y);
    }
  }

  // ----- Nothing comes out before its time

  ghost predicate NoneBefore(c: seq<UdpItem>, since: nat) { forall i :: 0 <= i < |c| ==> since <= c[i].startTime }

  lemma StepNotBefore(c: seq<UdpItem>, p: Mbuf, t: nat, since: nat)
    requires NoneBefore(c, since) && since <= t
    ensures NoneBefore(StepChain(c, p, t), since)
  {
    DecideStops(c, p, 0);
  }

  lemma {:induction false} Waits(s: Session, es: seq<Event>, k: UdpKey, since: nat, ts: nat)
    requires Wf(s.view) && NoneBefore(Lookup(s.view, k), since)
    requires forall i :: 0 <= i < |es| ==> InTime(es[i], k, since, ts)
    ensures Undisturbed(s, es, k)
    decreases |es|
  {
    if es != [] {
      var c, a := Lookup(s.view, k), TakenBy(s, es[0], k);
      assert InTime(es[0], k, since, ts);
      NextChain(s, es[0], k);
      NextWf(s, es[0]);
      if a != [] {
        ArriveOne(c, a[0]);
        StepNotBefore(c, a[0].p, a[0].t, since);
      }
      Waits(Next(s, es[0]), es[1..], k, since, ts);
    }
  }

  // ----- The datagram comes out

  /** Only the header lengths of flow `k` are known. */
  function Only(k: UdpKey, l: Lengths): FlowLens { (x: UdpKey) => if x == k then Some(l) else None }

  lemma {:induction false} EventsOk(es: seq<Event>, k: UdpKey, l: Lengths)
    requires forall p | p in PacketsOf(es, k) :: PacketOk(p, l)
    ensures forall i :: 0 <= i < |es| ==> EventOk(es[i], Only(k, l))
  {
    if es != [] {
      assert forall p | p in PacketsOf(es[1..], k) :: p in PacketsOf(es, k);
      EventsOk(es[1..], k, l);
      assert es[0].Packet? && KeyOf(es[0].p.hdr) == k ==> es[0].p in PacketsOf(es, k);
    }
  }

  /** What the fragments alone come out as. */
  lemma DatagramAlone(k: UdpKey, a: seq<Arrival>, cut: seq<Mbuf>, d: seq<byte>, l: Lengths, ts: nat)
    requires Fragmented(k, cut, d, l) && multiset(PacketsIn(a)) == multiset(cut)
    requires forall i :: 0 <= i < |a| ==> a[i].t <= ts
    ensures var o := Outcome(a, ts, |a|); |o| == 1 && Whole(k, o[0], d, l)
  {
    Arrived(k, a, cut, d, l);
    LastArrived(a, cut, d);
    assert forall i :: 0 <= i < |cut| ==> cut[i] in cut;
    ArrivedUnits(k, a, cut, d);
    CompleteDatagram(k, a, d, l, ts, |a|);
    OutcomeLens(k, a, l, ts, 0);
  }

  lemma OutcomeLens(k: UdpKey, a: seq<Arrival>, l: Lengths, ts: nat, i: nat)
    requires Fragments(k, a, l) && (forall i :: 0 <= i < |a| ==> a[i].t <= ts) && i < |Outcome(a, ts, |a|)|
    ensures PacketOk(Outcome(a, ts, |a|)[i], l)
  {
    var c, o := Arrive([], a), DrainChain(Arrive([], a), ts, |a|).out;
    ArriveKeeps(k, [], a, l, ts);
    DrainEmpties(c, ts, |a|);
    FlushKeepsUnits(k, c, ts, |a|, l);
    assert ItemOk(k, o[i], l) && Outcome(a, ts, |a|)[i] == Finish(o[i]);
  }

  /** A packet of flow `k` that is the whole datagram `d`. */
  predicate Whole(k: UdpKey, m: Mbuf, d: seq<byte>, l: Lengths) {
    && KeyOf(m.hdr) == k && SameUpToL4(m.lens, l) && m.hdr.fragUnits == 0 && !m.hdr.mf
    && Front(l) <= |m.data| && m.data[Front(l)..] == d
  }

  lemma SlotsSuffice(n: nat, es: seq<Event>, k: UdpKey)
    requires |es| <= n
    ensures var s := NewTable(n); TakenOf(s, es, k) == ArrivalsOf(es, k) && Total(RunAll(s, es).view) <= n
  {
    var s := NewTable(n);
    EmptyHolds(s.view, ItemBuffers);
    AllTaken(s, es, k);
    RunWf(s, es);
  }

  lemma Ripens(n: nat, es: seq<Event>, k: UdpKey, cut: seq<Mbuf>, d: seq<byte>, l: Lengths, since: nat, ts: nat,
               room: nat)
    requires Fragmented(k, cut, d, l) && Brings(es, k, cut, since, ts) && |es| <= n <= room
    ensures Ripe(NewTable(n), es, k, Only(k, l), ts, room)
    ensures PacketsIn(TakenOf(NewTable(n), es, k)) == PacketsOf(es, k)
  {
    forall p | p in PacketsOf(es, k) ensures PacketOk(p, l) && !Rejected(p) {
      assert p in multiset(PacketsOf(es, k));
      PieceOk(k, cut, d, l, p);
    }
    NewBalanced(n, Only(k, l));
    EventsOk(es, k, l);
    Waits(NewTable(n), es, k, since, ts);
    SlotsSuffice(n, es, k);
    ArrivalsAre(es, k, since, ts);
  }

  /** From a new table with a slot for each event, let the fragments of a datagram arrive in
      any order, between any packets of other flows and flushes that are not yet for them.
      All fragments are taken. The flush for them, with room for the table, puts out one
      packet of the flow: the datagram, at offset 0 and with More Fragments clear; and it
      leaves nothing of the flow behind. */
  lemma DatagramDelivered(n: nat, es: seq<Event>, k: UdpKey, cut: seq<Mbuf>, d: seq<byte>, l: Lengths, since: nat,
                          ts: nat, room: nat)
    requires Fragmented(k, cut, d, l) && Brings(es, k, cut, since, ts) && |es| <= n <= room
    ensures var s := NewTable(n); var o := ComesOut(s, es, k, ts, room);
      && PacketsIn(TakenOf(s, es, k)) == PacketsOf(es, k) && |o| == 1 && Whole(k, o[0], d, l)
      && Lookup(Flush(RunAll(s, es).view, room, DrainBy(ts)).view, k) == []
  {
    var s := NewTable(n);
    Ripens(n, es, k, cut, d, l, since, ts, room);
    FlowComesOut(s, es, k, Only(k, l), ts, room);
    DatagramAlone(k, TakenOf(s, es, k), cut, d, l, ts);
  }
}
