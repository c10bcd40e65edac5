/**
  What the flush loops of all table modules have in common: the loop invariants
  that tie the output array and the table to `FlowTable.Flush`. `drain` says what
  is taken off one chain, `finish` which packet an item is put out as.
 */
module FlushLoop {
  import opened Packets
  import opened FlowTable
  import opened ItemTable

  type Drainer<!I> = (seq<I>, nat) -> Drain<I>

  function Finished<I>(c: seq<I>, finish: I -> Mbuf): seq<Mbuf> {
    seq(|c|, i requires 0 <= i < |c| => finish(c[i]))
  }

  /** What a flush puts out, as packets. */
  function Emitted<K, I>(out: seq<Tagged<K, I>>, finish: I -> Mbuf): seq<Mbuf> {
    Finished(Items(out), finish)
  }

  // ----- The loop over one chain

  /** Of the result `d`, `n` items have been put out and the chain `c` is left to drain. */
  ghost predicate Draining<I>(d: Drain<I>, drain: Drainer<I>, room: nat, n: nat, c: seq<I>) {
    n <= room && n <= |d.out| <= room && Drain(d.out[n..], d.rest) == drain(c, room - n)
  }

  lemma DrainStep<I>(d: Drain<I>, drain: Drainer<I>, room: nat, n: nat, c: seq<I>, m: seq<I>)
    requires Draining(d, drain, room, n, c) && n < room && m != []
    requires var r := drain(m[1..], room - n - 1); drain(c, room - n) == Drain([m[0]] + r.out, r.rest)
    ensures n < |d.out| && d.out[n] == m[0] && Draining(d, drain, room, n + 1, m[1..])
  {
    var r := drain(m[1..], room - n - 1);
    assert d.out[n..] == [m[0]] + r.out;
    assert |d.out| - n == |d.out[n..]| > 0;
    assert d.out[n + 1..] == d.out[n..][1..] == r.out;
  }

  /** Progress of the loop over flow `i`. */
  ghost predicate Drains<K(0), I>(tbl: Table<K, I>, v0: seq<Flow<K, I>>, i: nat, out: array<Mbuf>, out0: seq<Mbuf>,
                                  at: nat, d: Drain<I>, drain: Drainer<I>, finish: I -> Mbuf, room: nat, n: nat,
                                  c: seq<I>)
    reads tbl, tbl.items, tbl.flows, out
  {
    && tbl.Valid() && i < |v0| && v0[i].Flow? && tbl.view == v0[i := SlotFor(v0[i].key, c)]
    && Draining(d, drain, room, n, c) && |out0| == out.Length && at + room <= out.Length
    && out[..] == Fill(out0, at, Finished(d.out, finish), n)
  }

  /** The loop over one flow may stop when there is nothing more to put out. */
  lemma DrainEnds<K(0), I>(tbl: Table<K, I>, v0: seq<Flow<K, I>>, i: nat, out: array<Mbuf>, out0: seq<Mbuf>, at: nat,
                           d: Drain<I>, drain: Drainer<I>, finish: I -> Mbuf, room: nat, n: nat, c: seq<I>)
    requires Drains(tbl, v0, i, out, out0, at, d, drain, finish, room, n, c)
    requires drain(c, room - n) == Drain([], c)
    ensures n == |d.out| && tbl.view == v0[i := SlotFor(v0[i].key, d.rest)]
    ensures out[..] == Written(out0, at, Finished(d.out, finish))
  {
    assert |d.out[n..]| == |d.out| - n == 0;
    FillWrites(out0, at, Finished(d.out, finish), n);
  }

  // ----- The loop over the flows

  lemma EmitMore<K, I>(out0: seq<Mbuf>, at: nat, o: seq<Tagged<K, I>>, k: nat, key: K, c: seq<I>, finish: I -> Mbuf)
    requires k + |c| <= |o| && at + |o| <= |out0| && o[k..k + |c|] == Tag(key, c)
    ensures Written(Written(out0, at, Emitted(o, finish)[..k]), at + k, Finished(c, finish))
         == Written(out0, at, Emitted(o, finish)[..k + |c|])
  {
    var e, e' := Emitted(o, finish), Finished(c, finish);
    forall j | 0 <= j < |c| ensures e[k + j] == e'[j] {
      assert o[k + j] == o[k..k + |c|][j];
    }
    assert e[..k + |c|] == e[..k] + e';
    WrittenTwice(out0, at, e[..k], e');
  }

  /** Progress of a flush: the slots before `i` are done, `k` items are in `out`. */
  ghost predicate Flushes<K(0), I>(tbl: Table<K, I>, v0: seq<Flow<K, I>>, out: array<Mbuf>, out0: seq<Mbuf>, at: nat,
                                   r: Flushed<K, I>, drain: Drainer<I>, finish: I -> Mbuf, room: nat, i: nat, k: nat)
    reads tbl, tbl.items, tbl.flows, out
  {
    && tbl.Valid() && Flushing(v0, room, drain, r, i, k) && tbl.view == Blend(r.view, v0, i)
    && |out0| == out.Length && at + room <= out.Length && |r.out| <= room
    && out[..] == Written(out0, at, Emitted(r.out, finish)[..k])
  }

  lemma FlushBegins<K(0), I>(tbl: Table<K, I>, out: array<Mbuf>, at: nat, drain: Drainer<I>, finish: I -> Mbuf,
                             room: nat)
    requires tbl.Valid() && at + room <= out.Length
    requires forall c, n: nat :: c != [] ==> Shrinks(c, drain(c, n), n)
    ensures Flushes(tbl, tbl.view, out, out[..], at, Flush(tbl.view, room, drain), drain, finish, room, 0, 0)
  {
    FlushKeepsWf(tbl.view, room, drain);
    FlushStart(tbl.view, room, drain);
  }

  /** A slot without a flow is passed over. */
  lemma FlushSkips<K(0), I>(tbl: Table<K, I>, v0: seq<Flow<K, I>>, out: array<Mbuf>, out0: seq<Mbuf>, at: nat,
                            r: Flushed<K, I>, drain: Drainer<I>, finish: I -> Mbuf, room: nat, i: nat, k: nat, n: nat)
    requires Flushes(tbl, v0, out, out0, at, r, drain, finish, room, i, k) && i < |v0| && k < room && n == 0
    ensures tbl.view[i] == v0[i]
    ensures v0[i].NoFlow? ==> Flushes(tbl, v0, out, out0, at, r, drain, finish, room, i + 1, k + n)
  {
    FlushStep(v0, room, drain, r, i, k);
    BlendNext(r.view, v0, i);
  }

  /** One flow was drained: the table was `v`, and the output array `s`. */
  lemma FlushMoves<K(0), I>(tbl: Table<K, I>, v0: seq<Flow<K, I>>, out: array<Mbuf>, out0: seq<Mbuf>, at: nat,
                            r: Flushed<K, I>, drain: Drainer<I>, finish: I -> Mbuf, room: nat, i: nat, k: nat,
                            v: seq<Flow<K, I>>, s: seq<Mbuf>, d: Drain<I>, n: nat)
    requires Flushing(v0, room, drain, r, i, k) && i < |v0| && k < room && |r.out| <= room && v0[i].Flow?
    requires |out0| == out.Length && at + room <= out.Length
    requires v == Blend(r.view, v0, i) && s == Written(out0, at, Emitted(r.out, finish)[..k])
    requires d == drain(v0[i].chain, room - k) && n == |d.out| <= room - k
    requires tbl.Valid() && tbl.view == v[i := SlotFor(v0[i].key, d.rest)]
    requires out[..] == Written(s, at + k, Finished(d.out, finish))
    ensures Flushes(tbl, v0, out, out0, at, r, drain, finish, room, i + 1, k + n)
  {
    FlushStep(v0, room, drain, r, i, k);
    BlendNext(r.view, v0, i);
    EmitMore(out0, at, r.out, k, v0[i].key, d.out, finish);
  }

  lemma FlushEnds<K(0), I>(tbl: Table<K, I>, v0: seq<Flow<K, I>>, out: array<Mbuf>, out0: seq<Mbuf>, at: nat,
                               r: Flushed<K, I>, drain: Drainer<I>, finish: I -> Mbuf, room: nat, i: nat, k: nat)
    requires Flushes(tbl, v0, out, out0, at, r, drain, finish, room, i, k)
    requires i == |v0| || tbl.flowNum == 0 || k == room
    ensures tbl.view == r.view && k == |r.out| <= room
    ensures out[..] == Written(out0, at, Emitted(r.out, finish))
  {
    FlushRest(tbl.view, v0, room, drain, r, i, k);
    assert Emitted(r.out, finish)[..k] == Emitted(r.out, finish);
  }
}
