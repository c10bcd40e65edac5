/**
  The More Fragments flag of what leaves the table: clear exactly on the packets that
  contain the buffer of a last fragment.
 */
module UdpLastFragment {
  import opened Basics
  import opened Packets
  import opened FlowTable
  import opened FlushLoop
  import opened Udp
  import opened UdpLaws
  import opened UdpSessions

  // `last` tells which buffers last fragments arrived in.
  predicate HasLast(segs: seq<nat>, last: nat -> bool) { exists s | s in segs :: last(s) }

  predicate Marked(it: UdpItem, last: nat -> bool) { it.isLastFrag <==> HasLast(it.firstseg.segs, last) }

  ghost predicate AllMarked(c: seq<UdpItem>, last: nat -> bool) { forall i :: 0 <= i < |c| ==> Marked(c[i], last) }

  lemma HasLastConcat(a: seq<nat>, b: seq<nat>, last: nat -> bool)
    ensures HasLast(a + b, last) <==> HasLast(a, last) || HasLast(b, last)
  {
    if HasLast(a, last) {
      var s :| s in a && last(s);
      assert s in a + b;
    }
    if HasLast(b, last) {
      var s :| s in b && last(s);
      assert s in a + b;
    }
  }

  lemma MergeMarked(it: UdpItem, p: Mbuf, cmp: int, off: nat, isLast: bool, last: nat -> bool)
    requires Marked(it, last) && (isLast <==> HasLast(p.segs, last))
    ensures Marked(Merge(it, p, cmp, off, isLast), last)
  {
    HasLastConcat(it.firstseg.segs, p.segs, last);
    HasLastConcat(p.segs, it.firstseg.segs, last);
  }

  lemma StepMarked(c: seq<UdpItem>, p: Mbuf, t: nat, last: nat -> bool)
    requires AllMarked(c, last) && (!p.hdr.mf <==> HasLast(p.segs, last))
    ensures AllMarked(StepChain(c, p, t), last)
  {
    DecideStops(c, p, 0);
    if Merges(c, p) {
      var s := StopAt(c, p, 0);
      MergeMarked(c[s], p, Cmp(c[s], p), FragOffset(p.hdr), !p.hdr.mf, last);
    }
  }

  lemma {:induction false} FuseMarked(c: seq<UdpItem>, last: nat -> bool)
    requires c != [] && AllMarked(c, last)
    ensures AllMarked(Fuse(c), last)
    decreases |c|
  {
    if FuseOnce(c) != c {
      var p := c[1].firstseg;
      assert Marked(c[0], last) && Marked(c[1], last);
      MergeMarked(c[0], p, CheckNeighbor(c[0], c[1].fragOffset, DataLen(p)), c[1].fragOffset, c[1].isLastFrag, last);
      FuseMarked(FuseOnce(c), last);
    }
  }

  lemma {:induction false} DrainMarked(c: seq<UdpItem>, ts: nat, room: nat, last: nat -> bool)
    requires AllMarked(c, last)
    ensures AllMarked(DrainChain(c, ts, room).out, last) && AllMarked(DrainChain(c, ts, room).rest, last)
    decreases |c|
  {
    if c != [] && room > 0 && c[0].startTime <= ts {
      var m := Fuse(c);
      FuseMarked(c, last);
      assert Marked(m[0], last) && AllMarked(m[1..], last);
      DrainMarked(m[1..], ts, room - 1, last);
    }
  }

  function MarkedBy(last: nat -> bool): (UdpKey, UdpItem) -> bool {
    (k: UdpKey, it: UdpItem) => Marked(it, last)
  }

  ghost predicate ViewMarked(v: UdpView, last: nat -> bool) {
    forall i :: 0 <= i < |v| && v[i].Flow? ==> AllMarked(v[i].chain, last)
  }

  /** A packet arrives with its buffers marked as what it is. */
  ghost predicate EventMarked(e: Event, last: nat -> bool) {
    e.Packet? ==> (!e.p.hdr.mf <==> HasLast(e.p.segs, last))
  }

  ghost predicate OutMarked(ms: seq<Mbuf>, lens: FlowLens, last: nat -> bool) {
    forall i :: 0 <= i < |ms| && lens(KeyOf(ms[i].hdr)).Some? ==> (!ms[i].hdr.mf <==> HasLast(ms[i].segs, last))
  }

  lemma NextMarked(s: Session, e: Event, lens: FlowLens, last: nat -> bool)
    requires Balanced(s, lens) && EventOk(e, lens) && EventMarked(e, last)
    requires ViewMarked(s.view, last) && OutMarked(s.out, lens, last)
    ensures ViewMarked(Next(s, e).view, last) && OutMarked(Next(s, e).out, lens, last)
  {
    match e
    case Packet(p, t) =>
      if Accept(s.view, p, t).ret != -1 {
        AcceptChain(s.view, p, t);
        StepMarked(Lookup(s.view, KeyOf(p.hdr)), p, t, last);
      }
    case Timeout(ts, room) =>
      FlushMarked(s.view, room, ts, lens, last);
  }

  lemma FlushMarked(v: UdpView, room: nat, ts: nat, lens: FlowLens, last: nat -> bool)
    requires Wf(v) && ViewOk(v, lens) && ViewMarked(v, last)
    ensures var r := Flush(v, room, DrainBy(ts));
      ViewMarked(r.view, last) && OutMarked(Emitted(r.out, Finish), lens, last)
  {
    var r := Flush(v, room, DrainBy(ts));
    forall i, n: nat | 0 <= i < |v| && v[i].Flow?
      ensures All(v[i].key, DrainBy(ts)(v[i].chain, n).out, MarkedBy(last))
      ensures All(v[i].key, DrainBy(ts)(v[i].chain, n).rest, MarkedBy(last))
    {
      DrainMarked(v[i].chain, ts, n, last);
    }
    FlushAll(v, room, DrainBy(ts), MarkedBy(last));
    forall i | 0 <= i < |r.view| && r.view[i].Flow? ensures AllMarked(r.view[i].chain, last) {
      assert All(r.view[i].key, r.view[i].chain, MarkedBy(last));
    }
    FlushConserves(v, room, ts, lens);
    var ms := Emitted(r.out, Finish);
    forall i | 0 <= i < |ms| && lens(KeyOf(ms[i].hdr)).Some? ensures !ms[i].hdr.mf <==> HasLast(ms[i].segs, last) {
      var o := r.out[i];
      assert OkBy(lens)(o.key, o.item) && MarkedBy(last)(o.key, o.item);
      FinishIn(o.key, o.item, lens);
      FinishOk(o.key, o.item, lens(o.key).value);
    }
  }

  /** In every run, More Fragments is clear on a packet put out of a flow with known header
      lengths exactly if one of its buffers brought a last fragment. */
  lemma {:induction false} RunMarked(s: Session, es: seq<Event>, lens: FlowLens, last: nat -> bool)
    requires Balanced(s, lens) && ViewMarked(s.view, last) && OutMarked(s.out, lens, last)
    requires forall i :: 0 <= i < |es| ==> EventOk(es[i], lens) && EventMarked(es[i], last)
    ensures OutMarked(RunAll(s, es).out, lens, last)
    decreases |es|
  {
    if es != [] {
      NextMarked(s, es[0], lens, last);
      NextBalanced(s, es[0], lens);
      RunMarked(Next(s, es[0]), es[1..], lens, last);
    }
  }

  /** So it is for every run of a new table. */
  lemma MarkedFromNew(n: nat, es: seq<Event>, lens: FlowLens, last: nat -> bool)
    requires forall i :: 0 <= i < |es| ==> EventOk(es[i], lens) && EventMarked(es[i], last)
    ensures OutMarked(RunAll(NewTable(n), es).out, lens, last)
  {
    NewBalanced(n, lens);
    RunMarked(NewTable(n), es, lens, last);
  }
}
