/**
  The enqueue and dequeue loops of the compression performance tests
  (`comp_perf_test_throughput.c`, `comp_perf_test_verify.c`) over a device that accepts
  any part of a burst and hands operations back in any order.
 */
module Pipeline {
  import opened Basics

  // ----- What the loops do, without arrays

  /** How the device answers one round: how many operations it would accept, and which
      positions of its queue it hands back, one after the other. */
  datatype Turn = Turn(accept: nat, picks: seq<nat>)

  /** The next buffer to hand over, the buffers in flight, and those handed back. */
  datatype Line = Line(next: nat, queue: seq<nat>, done: seq<nat>)

  datatype Picked = Picked(out: seq<nat>, rest: seq<nat>)

  function Without(q: seq<nat>, i: nat): seq<nat>
    requires i < |q|
  {
    q[..i] + q[i + 1..]
  }

  /** Taking elements out of `q`, at most `room`. A device that keeps order always picks 0. */
  function Pick(q: seq<nat>, picks: seq<nat>, room: nat): (r: Picked)
    ensures |r.out| <= room && |r.out| + |r.rest| == |q|
    decreases |picks|
  {
    if q == [] || picks == [] || room == 0 then Picked([], q)
    else
      var i := if picks[0] < |q| then picks[0] else 0;
      var r := Pick(Without(q, i), picks[1..], room - 1);
      Picked([q[i]] + r.out, r.rest)
  }

  function Range(from: nat, n: nat): seq<nat> { seq(n, i requires 0 <= i < n => from + i) }

  function DequeueLine(l: Line, picks: seq<nat>, burst: nat): Line {
    var r := Pick(l.queue, picks, burst);
    Line(l.next, r.rest, l.done + r.out)
  }

  /** The next `m` buffers go to the device. */
  function Sent(l: Line, m: nat): Line { Line(l.next + m, l.queue + Range(l.next, m), l.done) }

  /** One round of the first loop: the device gets the next buffers in order. */
  function StepLine(l: Line, turn: Turn, total: nat, burst: nat): Line
    requires l.next <= total
  {
    var m := Min(turn.accept, Min(total - l.next, burst));
    DequeueLine(Sent(l, m), turn.picks, burst)
  }

  /** The first loop, until all buffers are accepted or the device stops answering. */
  function RunLine(l: Line, turns: seq<Turn>, total: nat, burst: nat): (r: Line)
    requires l.next <= total
    ensures r.next <= total
    decreases |turns|
  {
    if l.next == total || turns == [] then l
    else RunLine(StepLine(l, turns[0], total, burst), turns[1..], total, burst)
  }

  /** The second loop, until all buffers are handed back. */
  function DrainLine(l: Line, picks: seq<seq<nat>>, total: nat, burst: nat): Line
    decreases |picks|
  {
    if |l.done| >= total || picks == [] then l
    else DrainLine(DequeueLine(l, picks[0], burst), picks[1..], total, burst)
  }

  // ----- Laws of the line

  /** Between them, `r.out` and `r.rest` are `q`. */
  ghost predicate Parts(q: seq<nat>, r: Picked) { multiset(r.out) + multiset(r.rest) == multiset(q) }

  lemma {:induction false} PickKeeps(q: seq<nat>, picks: seq<nat>, room: nat)
    ensures Parts(q, Pick(q, picks, room))
    decreases |picks|
  {
    if q != [] && picks != [] && room > 0 {
      var i := if picks[0] < |q| then picks[0] else 0;
      PickKeeps(Without(q, i), picks[1..], room - 1);
      PartsMore(q, i, Pick(Without(q, i), picks[1..], room - 1));
    }
  }

  lemma PartsMore(q: seq<nat>, i: nat, r: Picked)
    requires i < |q| && Parts(Without(q, i), r)
    ensures Parts(q, Picked([q[i]] + r.out, r.rest))
  {
    WithoutOne(q, i);
    OneMore(q[i], r.out, r.rest, multiset(Without(q, i)));
  }

  lemma OneMore(x: nat, out: seq<nat>, rest: seq<nat>, m: multiset<nat>)
    requires multiset(out) + multiset(rest) == m
    ensures multiset([x] + out) + multiset(rest) == multiset{x} + m
  {
    assert multiset([x] + out) == multiset{x} + multiset(out);
  }

  lemma WithoutOne(q: seq<nat>, i: nat)
    requires i < |q|
    ensures multiset{q[i]} + multiset(Without(q, i)) == multiset(q)
  {
    assert q == q[..i] + [q[i]] + q[i + 1..];
  }

  ghost predicate Orderly(picks: seq<nat>) { forall i :: 0 <= i < |picks| ==> picks[i] == 0 }

  ghost predicate Splits(q: seq<nat>, r: Picked) { r.out + r.rest == q }

  lemma {:induction false} PickInOrder(q: seq<nat>, picks: seq<nat>, room: nat)
    requires Orderly(picks)
    ensures Splits(q, Pick(q, picks, room))
    decreases |picks|
  {
    if q != [] && picks != [] && room > 0 {
      assert picks[0] == 0 && Without(q, 0) == q[1..];
      PickInOrder(q[1..], picks[1..], room - 1);
      SplitsMore(q, Pick(q[1..], picks[1..], room - 1));
    }
  }

  lemma SplitsMore(q: seq<nat>, r: Picked)
    requires q != [] && Splits(q[1..], r)
    ensures Splits(q, Picked([q[0]] + r.out, r.rest))
  {
    assert ([q[0]] + r.out) + r.rest == [q[0]] + (r.out + r.rest);
  }

  /** Every buffer handed over so far is in flight or back, once. */
  ghost predicate Accounted(l: Line) { multiset(l.done) + multiset(l.queue) == multiset(Range(0, l.next)) }

  /** The same, in order. */
  ghost predicate InOrder(l: Line) { l.done + l.queue == Range(0, l.next) }

  lemma RangeMore(n: nat, m: nat)
    ensures Range(0, n) + Range(n, m) == Range(0, n + m)
  {}

  lemma DequeueLaws(l: Line, picks: seq<nat>, burst: nat)
    ensures Accounted(l) ==> Accounted(DequeueLine(l, picks, burst))
    ensures InOrder(l) && Orderly(picks) ==> InOrder(DequeueLine(l, picks, burst))
  {
    PickKeeps(l.queue, picks, burst);
    if Orderly(picks) {
      PickInOrder(l.queue, picks, burst);
      var r := Pick(l.queue, picks, burst);
      assert (l.done + r.out) + r.rest == l.done + (r.out + r.rest);
    }
  }

  lemma StepLaws(l: Line, turn: Turn, total: nat, burst: nat)
    requires l.next <= total
    ensures Accounted(l) ==> Accounted(StepLine(l, turn, total, burst))
    ensures InOrder(l) && Orderly(turn.picks) ==> InOrder(StepLine(l, turn, total, burst))
  {
    var m := Min(turn.accept, Min(total - l.next, burst));
    HandOverLaws(l, m);
    DequeueLaws(Sent(l, m), turn.picks, burst);
    assert StepLine(l, turn, total, burst) == DequeueLine(Sent(l, m), turn.picks, burst);
  }

  lemma HandOverLaws(l: Line, m: nat)
    ensures (Accounted(l) ==> Accounted(Sent(l, m))) && (InOrder(l) ==> InOrder(Sent(l, m)))
  {
    RangeMore(l.next, m);
    var more := l.queue + Range(l.next, m);
    assert l.done + more == (l.done + l.queue) + Range(l.next, m);
    assert multiset(l.done) + multiset(more) == (multiset(l.done) + multiset(l.queue)) + multiset(Range(l.next, m));
    assert multiset(Range(0, l.next) + Range(l.next, m)) == multiset(Range(0, l.next)) + multiset(Range(l.next, m));
  }

  /** For every sequence of answers, each buffer handed over is in flight or back exactly
      once, and no buffer is handed over before the ones in front of it; a device that
      keeps order gives them back in order. */
  lemma {:induction false} RunLaws(l: Line, turns: seq<Turn>, total: nat, burst: nat)
    requires l.next <= total && Accounted(l)
    ensures Accounted(RunLine(l, turns, total, burst))
    ensures InOrder(l) && (forall i :: 0 <= i < |turns| ==> Orderly(turns[i].picks))
      ==> InOrder(RunLine(l, turns, total, burst))
    decreases |turns|
  {
    if l.next < total && turns != [] {
      StepLaws(l, turns[0], total, burst);
      RunLaws(StepLine(l, turns[0], total, burst), turns[1..], total, burst);
    }
  }

  lemma {:induction false} DrainLaws(l: Line, picks: seq<seq<nat>>, total: nat, burst: nat)
    requires Accounted(l)
    ensures var r := DrainLine(l, picks, total, burst); Accounted(r) && r.next == l.next
    ensures InOrder(l) && (forall i :: 0 <= i < |picks| ==> Orderly(picks[i]))
      ==> InOrder(DrainLine(l, picks, total, burst))
    decreases |picks|
  {
    if |l.done| < total && picks != [] {
      DequeueLaws(l, picks[0], burst);
      DrainLaws(DequeueLine(l, picks[0], burst), picks[1..], total, burst);
    }
  }

  /** At the normal end of an iteration nothing is in flight. */
  lemma NothingInFlight(l: Line, total: nat)
    requires Accounted(l) && l.next == total <= |l.done|
    ensures l.queue == [] && |l.done| == total && multiset(l.done) == multiset(Range(0, total))
  {
    assert |multiset(l.done) + multiset(l.queue)| == |Range(0, total)|;
  }

  // ----- Progress

  /** How many operations the device would accept in these rounds, with bursts of `burst`. */
  function Accepts(turns: seq<Turn>, burst: nat): nat {
    if turns == [] then 0 else Min(turns[0].accept, burst) + Accepts(turns[1..], burst)
  }

  /** How many it would hand back. */
  function HandsBack(picks: seq<seq<nat>>, burst: nat): nat {
    if picks == [] then 0 else Min(|picks[0]|, burst) + HandsBack(picks[1..], burst)
  }

  /** The first loop hands over as many buffers as the device accepts, until it has all. */
  lemma {:induction false} RunCounts(l: Line, turns: seq<Turn>, total: nat, burst: nat)
    requires l.next <= total
    ensures RunLine(l, turns, total, burst).next == Min(total, l.next + Accepts(turns, burst))
    decreases |turns|
  {
    if l.next < total && turns != [] {
      RunCounts(StepLine(l, turns[0], total, burst), turns[1..], total, burst);
    }
  }

  /** A device hands back all operations it is asked for, as far as it has them. */
  lemma {:induction false} PickCounts(q: seq<nat>, picks: seq<nat>, room: nat)
    ensures |Pick(q, picks, room).out| == Min(Min(|picks|, room), |q|)
    decreases |picks|
  {
    if q != [] && picks != [] && room > 0 {
      PickCounts(Without(q, if picks[0] < |q| then picks[0] else 0), picks[1..], room - 1);
    }
  }

  /** With all buffers handed over, the second loop gets back as many as the device hands
      back, until it has all. */
  lemma {:induction false} DrainCounts(l: Line, picks: seq<seq<nat>>, total: nat, burst: nat)
    requires |l.done| + |l.queue| == total
    ensures |DrainLine(l, picks, total, burst).done| == Min(total, |l.done| + HandsBack(picks, burst))
    decreases |picks|
  {
    if |l.done| < total && picks != [] {
      PickCounts(l.queue, picks[0], burst);
      DrainCounts(DequeueLine(l, picks[0], burst), picks[1..], total, burst);
    }
  }

  lemma AccountedCount(l: Line)
    requires Accounted(l)
    ensures |l.done| + |l.queue| == l.next
  {
    assert |multiset(l.done) + multiset(l.queue)| == |Range(0, l.next)|;
  }

  /** An iteration comes to its normal end if and only if the device accepts all buffers, and
      hands back in the second loop those that it kept in the first. */
  lemma FinishesIff(turns: seq<Turn>, picks: seq<seq<nat>>, total: nat, burst: nat)
    ensures var l := RunLine(Line(0, [], []), turns, total, burst); var r := DrainLine(l, picks, total, burst);
      l.next == total && |r.done| >= total <==>
        Accepts(turns, burst) >= total && |l.done| + HandsBack(picks, burst) >= total
  {
    var l := RunLine(Line(0, [], []), turns, total, burst);
    RunLaws(Line(0, [], []), turns, total, burst);
    RunCounts(Line(0, [], []), turns, total, burst);
    AccountedCount(l);
    if l.next == total {
      DrainCounts(l, picks, total, burst);
    }
  }

  // ----- The output

  /** What the verify loop collects for the buffers `bufs`. */
  function Collected(bufs: seq<nat>, produce: nat -> seq<byte>): seq<byte> {
    if bufs == [] then [] else Collected(bufs[..|bufs| - 1], produce) + produce(bufs[|bufs| - 1])
  }

  lemma {:induction false} CollectedConcat(a: seq<nat>, b: seq<nat>, produce: nat -> seq<byte>)
    ensures Collected(a + b, produce) == Collected(a, produce) + Collected(b, produce)
  {
    if b == [] {
      assert a + b == a;
    } else {
      var n := |b| - 1;
      assert (a + b)[..|a + b| - 1] == a + b[..n];
      CollectedConcat(a, b[..n], produce);
    }
  }

  /** With a device that keeps order, a finished iteration has collected the results of
      all buffers, in buffer order. */
  lemma OutputInOrder(turns: seq<Turn>, picks: seq<seq<nat>>, total: nat, burst: nat, produce: nat -> seq<byte>)
    requires forall i :: 0 <= i < |turns| ==> Orderly(turns[i].picks)
    requires forall i :: 0 <= i < |picks| ==> Orderly(picks[i])
    requires RunLine(Line(0, [], []), turns, total, burst).next == total
    requires |DrainLine(RunLine(Line(0, [], []), turns, total, burst), picks, total, burst).done| >= total
    ensures var r := DrainLine(RunLine(Line(0, [], []), turns, total, burst), picks, total, burst);
      r.done == Range(0, total) && r.queue == [] && Collected(r.done, produce) == Collected(Range(0, total), produce)
  {
    var l := RunLine(Line(0, [], []), turns, total, burst);
    var r := DrainLine(l, picks, total, burst);
    RunLaws(Line(0, [], []), turns, total, burst);
    DrainLaws(l, picks, total, burst);
    NothingInFlight(r, total);
    assert r.done + [] == r.done;
  }
}
