/**
  The loops themselves: operations are slots of a pool, named in the array `ops`; each
  slot records the buffer its operation is for.
 */
module PipelineLoops {
  import opened Basics
  import opened Pipeline

  /** The operation pool and the queue pair of the device. */
  class Device {
    const buf: array<nat>
    var free: seq<nat>
    var queue: seq<nat>

    constructor (total: nat)
      ensures fresh(buf) && buf.Length == 2 * total && free == Range(0, 2 * total) && queue == []
    {
      buf := new nat[2 * total];
      free := Range(0, 2 * total);
      queue := [];
    }

    /** `rte_comp_op_bulk_alloc`: all or nothing. */
    method BulkAlloc(ops: array<nat>, at: nat, n: nat) returns (ok: bool)
      requires at + n <= ops.Length && ops != buf
      modifies this`free, ops
      ensures ok <==> n <= |old(free)|
      ensures !ok ==> free == old(free) && ops[..] == old(ops[..])
      ensures ok ==> free == old(free)[n..] && ops[..at + n] == old(ops[..at]) + old(free)[..n]
    {
      ok := n <= |free|;
      if ok {
        for i := 0 to n
          invariant free == old(free) && ops[..at + i] == old(ops[..at]) + free[..i]
        {
          ops[at + i] := free[i];
        }
        free := free[n..];
      }
    }

    /** `rte_mempool_put_bulk`. */
    method PutBulk(ops: array<nat>, n: nat)
      requires n <= ops.Length
      modifies this`free
      ensures free == old(free) + ops[..n]
    {
      free := free + ops[..n];
    }

    /** `rte_compressdev_enqueue_burst`. */
    method EnqueueBurst(ops: array<nat>, n: nat, accept: nat) returns (num: nat)
      requires n <= ops.Length
      modifies this`queue
      ensures num == Min(accept, n) && queue == old(queue) + ops[..num]
    {
      num := Min(accept, n);
      queue := queue + ops[..num];
    }

    /** `rte_compressdev_dequeue_burst`. */
    method DequeueBurst(deqOps: array<nat>, burst: nat, picks: seq<nat>) returns (num: nat)
      requires |queue| <= deqOps.Length
      modifies this`queue, deqOps
      ensures var r := Pick(old(queue), picks, burst);
        queue == r.rest && num == |r.out| <= deqOps.Length && deqOps[..num] == r.out
    {
      var r := Pick(queue, picks, burst);
      num := |r.out|;
      for i := 0 to num
        invariant deqOps[..i] == r.out[..i]
      {
        deqOps[i] := r.out[i];
      }
      queue := r.rest;
    }
  }

  /** Every slot is free, at the front of `ops`, or with the device: in one place only. */
  ghost predicate Shared(free: seq<nat>, front: seq<nat>, queue: seq<nat>, n: nat) {
    multiset(free) + multiset(front) + multiset(queue) == multiset(Range(0, n))
  }

  /** The operations `slots` are for the buffers `bufs`. */
  ghost predicate Attached(buf: seq<nat>, slots: seq<nat>, bufs: seq<nat>) {
    |slots| == |bufs| && forall k :: 0 <= k < |slots| ==> slots[k] < |buf| && buf[slots[k]] == bufs[k]
  }

  /** Between two rounds: `front` are the operations that were set up but not accepted. */
  ghost predicate Between(dev: Device, ops: array<nat>, total: nat, burst: nat, l: Line, front: seq<nat>)
    reads dev, dev.buf
  {
    && ops != dev.buf && ops.Length == total && dev.buf.Length == 2 * total
    && l.next + |front| <= total && |front| <= burst && |l.queue| + |l.done| == l.next
    && Shared(dev.free, front, dev.queue, 2 * total)
    && Attached(dev.buf[..], front, Range(l.next, |front|)) && Attached(dev.buf[..], dev.queue, l.queue)
  }

  lemma CountShared(free: seq<nat>, front: seq<nat>, queue: seq<nat>, n: nat)
    requires Shared(free, front, queue, n)
    ensures |free| + |front| + |queue| == n
  {
    assert |multiset(free) + multiset(front) + multiset(queue)| == |multiset(Range(0, n))|;
  }

  lemma {:induction false} RangeOnce(from: nat, n: nat, x: nat)
    ensures multiset(Range(from, n))[x] == if from <= x < from + n then 1 else 0
  {
    if n > 0 {
      RangeOnce(from, n - 1, x);
      assert Range(from, n) == Range(from, n - 1) + [from + n - 1];
    }
  }

  /** Slots in use are different from each other. */
  lemma Distinct(free: seq<nat>, front: seq<nat>, queue: seq<nat>, n: nat)
    requires Shared(free, front, queue, n)
    ensures forall k :: 0 <= k < |front| ==> front[k] < n && front[k] !in queue
    ensures forall j, k :: 0 <= j < k < |front| ==> front[j] != front[k]
    ensures forall k :: 0 <= k < |queue| ==> queue[k] < n
  {
    forall x: nat
      ensures multiset(free)[x] + multiset(front)[x] + multiset(queue)[x] <= 1
      ensures x in multiset(front) || x in multiset(queue) ==> x < n
    {
      RangeOnce(0, n, x);
      assert (multiset(free) + multiset(front) + multiset(queue))[x] == multiset(Range(0, n))[x];
    }
    forall k | 0 <= k < |front| ensures front[k] < n && front[k] !in queue {
      assert front[k] in multiset(front);
      assert front[k] in queue <==> front[k] in multiset(queue);
    }
    forall k | 0 <= k < |queue| ensures queue[k] < n {
      assert queue[k] in multiset(queue);
    }
    forall j, k | 0 <= j < k < |front| ensures front[j] != front[k] {
      if front[j] == front[k] { Twice(front, j, k); }
    }
  }

  lemma Twice(s: seq<nat>, j: nat, k: nat)
    requires j < k < |s| && s[j] == s[k]
    ensures multiset(s)[s[j]] >= 2
  {
    assert s == s[..k] + [s[k]] + s[k + 1..];
    assert s[j] in s[..k];
  }

  /** Move the operations the device did not accept to the front, to keep the order. */
  method MoveToFront(ops: array<nat>, numEnq: nat, opsUnused: nat)
    requires numEnq + opsUnused <= ops.Length
    modifies ops
    ensures ops[..opsUnused] == old(ops[numEnq..numEnq + opsUnused])
  {
    for i := 0 to opsUnused
      invariant ops[..i] == old(ops[numEnq..numEnq + i])
      invariant ops[i..] == old(ops[i..])
    {
      ops[i] := ops[numEnq + i];
    }
  }

  /** Attach the next buffers to the new operations. */
  method SetUp(dev: Device, ops: array<nat>, total: nat, opsUnused: nat, opsNeeded: nat, totalEnq: nat,
               ghost front: seq<nat>, ghost bufs: seq<nat>)
    requires ops != dev.buf && dev.buf.Length == 2 * total && |front| == opsUnused + opsNeeded <= ops.Length
    requires ops[..|front|] == front
    requires Shared(dev.free, front, dev.queue, 2 * total)
    requires Attached(dev.buf[..], front[..opsUnused], Range(totalEnq, opsUnused))
    requires Attached(dev.buf[..], dev.queue, bufs)
    modifies dev.buf
    ensures Attached(dev.buf[..], front, Range(totalEnq, |front|)) && Attached(dev.buf[..], dev.queue, bufs)
  {
    Distinct(dev.free, front, dev.queue, 2 * total);
    assert forall k :: 0 <= k < opsUnused ==> front[..opsUnused][k] == front[k];
    for i := 0 to opsNeeded
      invariant forall k :: 0 <= k < opsUnused + i ==> dev.buf[front[k]] == totalEnq + k
      invariant forall k :: 0 <= k < |bufs| ==> dev.buf[dev.queue[k]] == bufs[k]
    {
      var bufId := totalEnq + i + opsUnused;
      var opId := opsUnused + i;
      assert ops[opId] == ops[..|front|][opId];
      dev.buf[ops[opId]] := bufId;
    }
  }

  ghost predicate AttachedParts(buf: seq<nat>, r: Picked, s: Picked) {
    Attached(buf, r.out, s.out) && Attached(buf, r.rest, s.rest)
  }

  lemma {:induction false} PickAttached(buf: seq<nat>, q: seq<nat>, bufs: seq<nat>, picks: seq<nat>, room: nat)
    requires Attached(buf, q, bufs)
    ensures AttachedParts(buf, Pick(q, picks, room), Pick(bufs, picks, room))
    decreases |picks|
  {
    if q != [] && picks != [] && room > 0 {
      var i := if picks[0] < |q| then picks[0] else 0;
      AttachedWithout(buf, q, bufs, i);
      PickAttached(buf, Without(q, i), Without(bufs, i), picks[1..], room - 1);
      AttachedMore(buf, q[i], bufs[i], Pick(Without(q, i), picks[1..], room - 1),
        Pick(Without(bufs, i), picks[1..], room - 1));
    }
  }

  lemma AttachedWithout(buf: seq<nat>, q: seq<nat>, bufs: seq<nat>, i: nat)
    requires Attached(buf, q, bufs) && i < |q|
    ensures Attached(buf, Without(q, i), Without(bufs, i))
  {}

  lemma AttachedMore(buf: seq<nat>, x: nat, b: nat, r: Picked, s: Picked)
    requires AttachedParts(buf, r, s) && x < |buf| && buf[x] == b
    ensures AttachedParts(buf, Picked([x] + r.out, r.rest), Picked([b] + s.out, s.rest))
  {}

  // ----- One round

  /** The counters of the loops. */
  datatype Counters = Counters(remainingOps: nat, totalEnqOps: nat, totalDeqOps: nat, opsUnused: nat, numEnq: nat,
                               opsAllocated: nat)

  /** Where the operations are that the device did not accept last time. */
  function Offset(c: Counters): nat { if c.opsUnused > 0 && c.numEnq > 0 then c.numEnq else 0 }

  ghost predicate Kept(s: seq<nat>, at: nat, n: nat, front: seq<nat>) {
    at + n <= |s| && s[at..at + n] == front
  }

  /** The loops have come as far as the line `l`. */
  ghost predicate At(dev: Device, ops: array<nat>, total: nat, burst: nat, l: Line, front: seq<nat>, c: Counters)
    reads dev, dev.buf, ops
  {
    && Between(dev, ops, total, burst, l, front)
    && c.remainingOps == total - l.next && c.totalEnqOps == l.next && c.totalDeqOps == |l.done|
    && c.opsUnused == |front| && c.opsAllocated == |front| + |l.queue|
    && Kept(ops[..], Offset(c), c.opsUnused, front)
  }

  /** Fill the burst up with new operations. */
  method Refill(dev: Device, ops: array<nat>, total: nat, burst: nat, ghost l: Line, ghost front: seq<nat>, c: Counters)
    returns (ok: bool, numOps: nat, c': Counters, ghost front': seq<nat>)
    requires At(dev, ops, total, burst, l, front, c)
    modifies dev, dev.buf, ops
    ensures ok && numOps == Min(total - l.next, burst) && |front'| == numOps
    ensures c' == c.(opsUnused := numOps, numEnq := 0, opsAllocated := numOps + |l.queue|)
    ensures At(dev, ops, total, burst, l, front', c')
  {
    CountShared(dev.free, front, dev.queue, 2 * total);
    numOps := Min(c.remainingOps, burst);
    var opsNeeded := numOps - c.opsUnused;
    ok, front' := TakeOps(dev, ops, c, opsNeeded, front);
    Refilled(old(dev.free), opsNeeded, front, front', dev.queue, 2 * total);
    SetUp(dev, ops, total, c.opsUnused, opsNeeded, c.totalEnqOps, front', l.queue);
    c' := c.(opsUnused := numOps, numEnq := 0, opsAllocated := c.opsAllocated + opsNeeded);
  }

  /** Move what is left to the front and take `opsNeeded` operations from the pool. */
  method TakeOps(dev: Device, ops: array<nat>, c: Counters, opsNeeded: nat, ghost front: seq<nat>)
    returns (ok: bool, ghost front': seq<nat>)
    requires ops != dev.buf && Kept(ops[..], Offset(c), c.opsUnused, front)
    requires opsNeeded <= |dev.free| && c.opsUnused + opsNeeded <= ops.Length
    modifies dev`free, ops
    ensures ok && front' == front + old(dev.free)[..opsNeeded] && dev.free == old(dev.free)[opsNeeded..]
    ensures Kept(ops[..], 0, |front'|, front')
  {
    if c.opsUnused > 0 && c.numEnq > 0 {
      MoveToFront(ops, c.numEnq, c.opsUnused);
    }
    assert ops[..c.opsUnused] == front;
    ok := dev.BulkAlloc(ops, c.opsUnused, opsNeeded);
    front' := ops[..c.opsUnused + opsNeeded];
  }

  lemma Refilled(free: seq<nat>, n: nat, front: seq<nat>, front': seq<nat>, queue: seq<nat>, total: nat)
    requires n <= |free| && front' == front + free[..n] && Shared(free, front, queue, total)
    ensures Shared(free[n..], front', queue, total) && front'[..|front|] == front
  {
    assert free == free[..n] + free[n..];
  }

  /** Hand the burst to the device. */
  method HandOver(dev: Device, ops: array<nat>, total: nat, burst: nat, accept: nat, ghost l: Line,
                  ghost front: seq<nat>, c: Counters, numOps: nat)
    returns (c': Counters, ghost front': seq<nat>)
    requires At(dev, ops, total, burst, l, front, c) && |front| == numOps == Min(total - l.next, burst) && c.numEnq == 0
    modifies dev
    ensures var m := Min(accept, numOps);
      At(dev, ops, total, burst, Sent(l, m), front', c')
  {
    var numEnq := dev.EnqueueBurst(ops, numOps, accept);
    front' := front[numEnq..];
    assert ops[..numOps] == front && ops[..numEnq] == front[..numEnq];
    HandedOver(dev.free, front, old(dev.queue), numEnq, 2 * total);
    AttachedSplit(dev.buf[..], front, old(dev.queue), l, numEnq);
    c' := Counters(c.remainingOps - numEnq, c.totalEnqOps + numEnq, c.totalDeqOps, numOps - numEnq, numEnq,
      c.opsAllocated);
    KeptRest(ops[..], front, numEnq);
  }

  lemma KeptRest(s: seq<nat>, front: seq<nat>, m: nat)
    requires Kept(s, 0, |front|, front) && m <= |front|
    ensures Kept(s, m, |front| - m, front[m..])
    ensures Kept(s, 0, |front| - m, front[m..]) <== m == 0
  {
    assert s[m..|front|] == s[..|front|][m..];
  }

  lemma HandedOver(free: seq<nat>, front: seq<nat>, queue: seq<nat>, m: nat, n: nat)
    requires m <= |front| && Shared(free, front, queue, n)
    ensures Shared(free, front[m..], queue + front[..m], n)
  {
    assert front == front[..m] + front[m..];
  }

  lemma AttachedSplit(buf: seq<nat>, front: seq<nat>, queue: seq<nat>, l: Line, m: nat)
    requires m <= |front| && Attached(buf, front, Range(l.next, |front|)) && Attached(buf, queue, l.queue)
    ensures Attached(buf, front[m..], Range(l.next + m, |front| - m))
    ensures Attached(buf, queue + front[..m], l.queue + Range(l.next, m))
  {}

  /** Take operations back from the device, collect their results, and free them. */
  method TakeBack(dev: Device, ops: array<nat>, deqOps: array<nat>, total: nat, burst: nat, picks: seq<nat>,
                  ghost l: Line, ghost front: seq<nat>, c: Counters, output: seq<byte>, produce: nat -> seq<byte>)
    returns (c': Counters, output': seq<byte>)
    requires At(dev, ops, total, burst, l, front, c) && Apart(dev, ops, deqOps, total)
    requires output == Collected(l.done, produce)
    modifies dev, deqOps
    ensures var l' := DequeueLine(l, picks, burst);
      At(dev, ops, total, burst, l', front, c') && output' == Collected(l'.done, produce)
  {
    ghost var r, s := Pick(dev.queue, picks, burst), Pick(l.queue, picks, burst);
    PickAttached(dev.buf[..], dev.queue, l.queue, picks, burst);
    PickKeeps(dev.queue, picks, burst);
    var numDeq := dev.DequeueBurst(deqOps, burst, picks);
    output' := Collect(dev, deqOps, numDeq, s.out, output, l.done, produce);
    dev.PutBulk(deqOps, numDeq);
    PutBack(old(dev.free), front, old(dev.queue), r, 2 * total);
    c' := c.(totalDeqOps := c.totalDeqOps + numDeq, opsAllocated := c.opsAllocated - numDeq);
  }

  /** The two halves of the operation array, and the pool. */
  ghost predicate Apart(dev: Device, ops: array<nat>, deqOps: array<nat>, total: nat) {
    deqOps.Length == total && deqOps != ops && deqOps != dev.buf
  }

  /** The loop of the verify test over the operations it got back. */
  method Collect(dev: Device, deqOps: array<nat>, numDeq: nat, ghost bufs: seq<nat>, output: seq<byte>,
                 ghost done: seq<nat>, produce: nat -> seq<byte>)
    returns (output': seq<byte>)
    requires numDeq <= deqOps.Length && Attached(dev.buf[..], deqOps[..numDeq], bufs)
    requires output == Collected(done, produce)
    ensures output' == Collected(done + bufs, produce)
  {
    output' := output;
    assert done + bufs[..0] == done;
    for i := 0 to numDeq
      invariant output' == Collected(done + bufs[..i], produce)
    {
      assert deqOps[..numDeq][i] == deqOps[i];
      assert (done + bufs[..i + 1])[..|done| + i] == done + bufs[..i];
      output' := output' + produce(dev.buf[deqOps[i]]);
    }
    assert bufs[..numDeq] == bufs;
  }

  lemma PutBack(free: seq<nat>, front: seq<nat>, queue: seq<nat>, r: Picked, n: nat)
    requires Shared(free, front, queue, n) && multiset(r.out) + multiset(r.rest) == multiset(queue)
    ensures Shared(free + r.out, front, r.rest, n)
  {}

  /** The first half of a round. It never fails for want of operations. */
  method Send(dev: Device, ops: array<nat>, total: nat, burst: nat, accept: nat, ghost l: Line, ghost front: seq<nat>,
              c: Counters)
    returns (ok: bool, c': Counters, ghost front': seq<nat>)
    requires At(dev, ops, total, burst, l, front, c)
    modifies dev, dev.buf, ops
    ensures ok
    ensures var m := Min(accept, Min(total - l.next, burst));
      At(dev, ops, total, burst, Sent(l, m), front', c')
  {
    var numOps;
    ok, numOps, c', front' := Refill(dev, ops, total, burst, l, front, c);
    c', front' := HandOver(dev, ops, total, burst, accept, l, front', c', numOps);
  }

  /** One round of the first loop. */
  method Round(dev: Device, ops: array<nat>, deqOps: array<nat>, total: nat, burst: nat, turn: Turn,
               ghost l: Line, ghost front: seq<nat>, c: Counters, output: seq<byte>, produce: nat -> seq<byte>)
    returns (c': Counters, ghost front': seq<nat>, output': seq<byte>)
    requires At(dev, ops, total, burst, l, front, c) && Apart(dev, ops, deqOps, total)
    requires output == Collected(l.done, produce)
    modifies dev, dev.buf, ops, deqOps
    ensures var l' := StepLine(l, turn, total, burst);
      At(dev, ops, total, burst, l', front', c') && output' == Collected(l'.done, produce)
  {
    var ok;
    ok, c', front' := Send(dev, ops, total, burst, turn.accept, l, front, c);
    ghost var m := Min(turn.accept, Min(total - l.next, burst));
    ghost var l1 := Sent(l, m);
    c', output' := TakeBack(dev, ops, deqOps, total, burst, turn.picks, l1, front', c', output, produce);
  }

  /** One iteration of `main_loop`, which ends before its time when the device has given
      all its answers. The loops do to the pool, the array and the device exactly what the
      line does; a finished iteration has freed all operations. */
  method Iteration(dev: Device, ops: array<nat>, deqOps: array<nat>, total: nat, burst: nat, turns: seq<Turn>,
                   last: seq<seq<nat>>, produce: nat -> seq<byte>)
    returns (finished: bool, output: seq<byte>, opsAllocated: nat)
    requires ops != dev.buf && ops.Length == total && dev.buf.Length == 2 * total
    requires Apart(dev, ops, deqOps, total)
    requires multiset(dev.free) == multiset(Range(0, 2 * total)) && dev.queue == []
    modifies dev, dev.buf, ops, deqOps
    ensures var l := RunLine(Line(0, [], []), turns, total, burst); var r := DrainLine(l, last, total, burst);
      && (finished <==> l.next == total && |r.done| >= total)
      && (finished ==> output == Collected(r.done, produce))
    ensures finished ==> opsAllocated == 0 && dev.queue == [] && multiset(dev.free) == multiset(Range(0, 2 * total))
  {
    ghost var l, front := Line(0, [], []), [];
    var c := Counters(total, 0, 0, 0, 0, 0);
    output := [];
    assert multiset(dev.free) + multiset(front) + multiset(dev.queue) == multiset(dev.free);
    assert turns[0..] == turns && last[0..] == last;
    var t := 0;
    while c.remainingOps > 0 && t < |turns|
      invariant t <= |turns| && At(dev, ops, total, burst, l, front, c) && Accounted(l)
      invariant output == Collected(l.done, produce)
      invariant RunLine(l, turns[t..], total, burst) == RunLine(Line(0, [], []), turns, total, burst)
      decreases |turns| - t
    {
      assert turns[t..][1..] == turns[t + 1..];
      StepLaws(l, turns[t], total, burst);
      c, front, output := Round(dev, ops, deqOps, total, burst, turns[t], l, front, c, output, produce);
      l := StepLine(l, turns[t], total, burst);
      t := t + 1;
    }
    ghost var l1 := l;
    if c.remainingOps > 0 {
      return false, output, c.opsAllocated;
    }
    t := 0;
    while c.totalDeqOps < total && t < |last|
      invariant t <= |last| && At(dev, ops, total, burst, l, front, c) && Accounted(l)
      invariant output == Collected(l.done, produce)
      invariant l.next == total && DrainLine(l, last[t..], total, burst) == DrainLine(l1, last, total, burst)
      decreases |last| - t
    {
      assert last[t..][1..] == last[t + 1..];
      DequeueLaws(l, last[t], burst);
      c, output := TakeBack(dev, ops, deqOps, total, burst, last[t], l, front, c, output, produce);
      l := DequeueLine(l, last[t], burst);
      t := t + 1;
    }
    finished := c.totalDeqOps >= total;
    opsAllocated := c.opsAllocated;
    if finished {
      NothingInFlight(l, total);
    }
  }
}
