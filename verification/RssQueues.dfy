/**
  The cnxk key with ports, one step on: which packets and their replies share a queue
  although they hash differently.
 */
module RssQueues {
  import opened Basics
  import opened Toeplitz
  import opened RssFlows
  import opened RssPorts

  // ----- The last digits of a number

  ghost predicate SameTail(a: seq<bool>, b: seq<bool>, f: nat)
    requires f <= |a| == |b|
  {
    forall i :: |a| - f <= i < |a| ==> a[i] == b[i]
  }

  lemma ValueLast(a: seq<bool>)
    requires a != []
    ensures var n := |a| - 1; Value(a) == 2 * Value(a[..n]) + (if a[n] then 1 else 0)
  {}

  /** Words are equal modulo a power of two exactly if they have the same last bits. */
  lemma {:induction false} TailIsRemainder(a: seq<bool>, b: seq<bool>, f: nat)
    requires f <= |a| == |b|
    ensures Value(a) % Pow2(f) == Value(b) % Pow2(f) <==> SameTail(a, b, f)
  {
    if f > 0 {
      var n, m := |a| - 1, Pow2(f - 1);
      TailIsRemainder(a[..n], b[..n], f - 1);
      ValueLast(a);
      ValueLast(b);
      OneMoreDigit(Value(a[..n]), if a[n] then 1 else 0, m);
      OneMoreDigit(Value(b[..n]), if b[n] then 1 else 0, m);
      TailLast(a, b, f);
    }
  }

  lemma TailLast(a: seq<bool>, b: seq<bool>, f: nat)
    requires 0 < f <= |a| == |b|
    ensures var n := |a| - 1; SameTail(a, b, f) <==> SameTail(a[..n], b[..n], f - 1) && a[n] == b[n]
  {
    var n := |a| - 1;
    assert forall i :: 0 <= i < n ==> a[..n][i] == a[i] && b[..n][i] == b[i];
  }

  lemma {:induction false} RemainderTwice(v: nat, e: nat, f: nat)
    requires f <= e
    ensures v % Pow2(e) % Pow2(f) == v % Pow2(f)
  {
    if f > 0 {
      RemainderTwice(v / 2, e - 1, f - 1);
      DigitTwice(v, v / 2, v % 2, Pow2(e - 1), Pow2(f - 1));
    }
  }

  lemma DigitTwice(v: nat, half: nat, bit: nat, m: nat, n: nat)
    requires v == 2 * half + bit && bit < 2 && m > 0 && n > 0 && half % m % n == half % n
    ensures v % (2 * m) % (2 * n) == v % (2 * n)
  {
    OneMoreDigit(half, bit, m);
    OneMoreDigit(half % m, bit, n);
    OneMoreDigit(half, bit, n);
  }

  // ----- The bits in which two hashes differ

  /** The bits in which the ports of a packet differ. */
  function PortBits(p: Packet): (e: seq<bool>)
    ensures |e| == 16
  {
    XorBits(Bits(p.l4Sport), Bits(p.l4Dport))
  }

  /** Beyond the sixteenth, rows repeat. */
  lemma RowLater(e: seq<bool>, b: nat)
    requires |e| == 16 && 16 <= b
    ensures Odd(Row(e, b), 0, |e|) == Odd(Row(e, b - 16), 0, |e|)
  {
    var f, g := Row(e, b), Row(e, b - 16);
    forall i: nat | i < 16 ensures f(i) == g(i) {
      RingLater(Halves(), 1, i + (b - 16));
    }
    OddSame(f, g, |e|);
  }

  /** In the second half of the hash, bit `b` changes if an odd number of seven port bits do. */
  lemma DifferenceBit(e: seq<bool>, k: seq<bool>, at: nat, b: nat)
    requires |e| == 16 && HalvesDiffer(k) && at % 16 == 0 && at + 64 <= |k| && 16 <= b < 32
    ensures HashTo(e, Both(k, 16, at), |e|)[b] == Seven(e, 32 - b)
  {
    HashBit(e, Both(k, 16, at), |e|, b);
    ColumnIsRow(e, k, at, b);
    RowLater(e, b);
    RowCount(e, 32 - b);
  }

  lemma RowCount(e: seq<bool>, c: nat)
    requires |e| == 16 && c <= 16
    ensures Odd(Row(e, 16 - c), 0, |e|) == Seven(e, c)
  {
    RowAround(e, c);
    RowIsSeven(e, c);
  }

  /** The hash of a packet, ports included. */
  function PacketHash(p: Packet, k: seq<bool>): Word { Hash(Bits(p.HashData(true)), k, 0) }

  lemma PacketDifference(p: Packet)
    ensures var k, at := Bits(CnxkKey()), 8 * |p.ipSrc + p.ipDst|;
      && HalvesDiffer(k) && at % 16 == 0 && at + 64 <= |k|
      && Xor(PacketHash(p, k), PacketHash(p.Reverse(), k)) == HashTo(PortBits(p), Both(k, 16, at), 16)
  {
    var a, b, k := p.ipSrc + p.ipDst, p.ipDst + p.ipSrc, Bits(CnxkKey());
    var x, y := Bits(p.l4Sport), Bits(p.l4Dport);
    CnxkQuarters();
    QuartersHalves(k);
    CnxkAddresses(p);
    TwoHashed(a, p.l4Sport + p.l4Dport, k, 0, 8 * |a|);
    TwoHashed(b, p.l4Dport + p.l4Sport, k, 0, 8 * |b|);
    BitsConcat(p.l4Sport, p.l4Dport);
    BitsConcat(p.l4Dport, p.l4Sport);
    SwapDifference(x, y, k, 8 * |a|);
    SameFront(Hash(Bits(a), k, 0), Hash(x + y, k, 8 * |a|), Hash(y + x, k, 8 * |a|));
  }

  lemma SameFront(a: Word, b: Word, c: Word)
    ensures Xor(Xor(a, b), Xor(a, c)) == Xor(b, c)
  {
    XorPairs(a, b, a, c);
    XorSelf(a);
    ZeroXor(Xor(b, c));
  }

  // ----- Queues

  /** The first `n` counts of seven port bits are even. */
  ghost predicate CountsEven(e: seq<bool>, n: nat)
    requires |e| == 16
  {
    forall c: nat :: 1 <= c <= n ==> Seven(e, c) == false
  }

  lemma TailEven(p: Packet, f: nat)
    requires f <= 16
    ensures var k := Bits(CnxkKey());
      SameTail(PacketHash(p, k), PacketHash(p.Reverse(), k), f) <==> CountsEven(PortBits(p), f)
  {
    var k, at, e := Bits(CnxkKey()), 8 * |p.ipSrc + p.ipDst|, PortBits(p);
    var h, h' := PacketHash(p, k), PacketHash(p.Reverse(), k);
    PacketDifference(p);
    forall i: nat | 16 <= i < 32 ensures BitDiffers(h, h', e, i) {
      DifferenceBit(e, k, at, i);
      XorAt(h, h', i);
    }
    TailCounts(h, h', e, f);
  }

  /** Bit `i` of two hashes differs if a count is odd. */
  predicate BitDiffers(h: Word, h': Word, e: seq<bool>, i: nat)
    requires |e| == 16 && i < 32
  {
    (h[i] != h'[i]) == Seven(e, 32 - i)
  }

  lemma TailCounts(h: Word, h': Word, e: seq<bool>, f: nat)
    requires |e| == 16 && f <= 16 && forall i: nat :: 16 <= i < 32 ==> BitDiffers(h, h', e, i)
    ensures SameTail(h, h', f) <==> CountsEven(e, f)
  {
    if SameTail(h, h', f) {
      forall c: nat | 1 <= c <= f ensures Seven(e, c) == false {
        assert BitDiffers(h, h', e, 32 - c);
      }
    }
    if CountsEven(e, f) {
      forall i | 32 - f <= i < 32 ensures h[i] == h'[i] {
        assert BitDiffers(h, h', e, i) && Seven(e, 32 - i) == false;
      }
    }
  }

  lemma {:induction false} PowGrows(f: nat, e: nat)
    requires f < e
    ensures Pow2(f) < Pow2(e)
  {
    if f + 1 < e {
      PowGrows(f, e - 1);
    }
  }

  lemma QueueIs(algo: RssAlgo, p: Packet, e: nat, f: nat)
    requires f <= e < 32 && Pow2(e) < Pow2(32) && |algo.key| == 48
    requires algo == NewAlgo(Pow2(f), algo.key, Pow2(e), true)
    ensures QueueOf(algo, p) == Some(Value(PacketHash(p, Bits(algo.key))) % Pow2(f))
  {
    var hash := PacketHash(p, Bits(algo.key));
    EntryIs(algo, p, hash);
    OffsetIsRemainder(hash, e);
    RemainderTwice(Value(hash), e, f);
  }

  /** With as many queues as table entries or more, each entry is a queue of its own. */
  lemma QueueIsOffset(algo: RssAlgo, p: Packet, e: nat, queues: nat)
    requires e < 32 && Pow2(e) < Pow2(32) && |algo.key| == 48 && Pow2(e) <= queues
    requires algo == NewAlgo(queues, algo.key, Pow2(e), true)
    ensures QueueOf(algo, p) == Some(Value(PacketHash(p, Bits(algo.key))) % Pow2(e))
  {
    var hash := PacketHash(p, Bits(algo.key));
    EntryIs(algo, p, hash);
    OffsetIsRemainder(hash, e);
    RemainderBelow(Value(hash), Pow2(e), queues);
  }

  lemma RemainderBelow(v: nat, m: nat, n: nat)
    requires 0 < m <= n
    ensures 0 <= v % m < m && v % m % n == v % m
  {
    SmallRemainder(v % m, n);
  }

  lemma SmallRemainder(v: nat, n: nat)
    requires v < n
    ensures v % n == v
  {}

  lemma EntryIs(algo: RssAlgo, p: Packet, hash: Word)
    requires 0 < |algo.reta| < Pow2(32) && |algo.key| == 48 && algo.useL4Port && hash == PacketHash(p, Bits(algo.key))
    ensures QueueOf(algo, p) == Some(algo.reta[Offset(hash, |algo.reta|)])
  {}

  /** Sixteen even counts mean equal ports. */
  lemma AllCountsEven(p: Packet)
    ensures CountsEven(PortBits(p), 16) <==> p.l4Sport == p.l4Dport
  {
    var e := PortBits(p);
    BitsSame(p.l4Sport, p.l4Dport);
    if CountsEven(e, 16) {
      forall c: nat ensures !Seven(e, c) {
        var d := if c % 16 == 0 then 16 else c % 16;
        SameRing(e, c, c / 16, c % 16);
        SameRing(e, d, d / 16, d % 16);
      }
      NoneSet(e);
      NoneDiffer(Bits(p.l4Sport), Bits(p.l4Dport));
    } else if p.l4Sport == p.l4Dport {
      NothingSet(e);
    }
  }

  lemma NoneDiffer(x: seq<bool>, y: seq<bool>)
    requires |x| == |y| == 16 && forall c: nat :: c < 16 ==> !XorBits(x, y)[c]
    ensures x == y
  {
    forall i | 0 <= i < 16 ensures x[i] == y[i] {
      assert !XorBits(x, y)[i];
    }
  }

  lemma NothingSet(e: seq<bool>)
    requires |e| == 16 && forall i :: 0 <= i < 16 ==> !e[i]
    ensures CountsEven(e, 16)
  {
    assert forall i: nat :: Ring(e, i) == false;
  }

  /** The last bits of the two hashes are the same exactly if as many counts are even; and
      since no more than sixteen need be, more bits are the same only if all are. */
  lemma TailIff(p: Packet, f: nat)
    requires f <= 32
    ensures var k := Bits(CnxkKey());
      SameTail(PacketHash(p, k), PacketHash(p.Reverse(), k), f) <==> CountsEven(PortBits(p), Min(f, 16))
  {
    var k := Bits(CnxkKey());
    var h, h' := PacketHash(p, k), PacketHash(p.Reverse(), k);
    TailEven(p, Min(f, 16));
    if f > 16 {
      AllCountsEven(p);
      CnxkPorts(p);
      assert SameTail(h, h', f) ==> SameTail(h, h', 16);
    }
  }

  /** With a power of two of queues up to the size of the table, a packet and its reverse
      share one if and only if the last bits of their hashes are the same, which is a
      condition on the bits in which the ports differ: as many counts of seven of them are
      even as the queue number has bits. From 65536 queues on that means equal ports. */
  lemma SameQueueIff(p: Packet, e: nat, f: nat)
    requires f <= e < 32
    ensures Pow2(e) < Pow2(32)
    ensures var algo := NewAlgo(Pow2(f), CnxkKey(), Pow2(e), true);
      QueueOf(algo, p) == QueueOf(algo, p.Reverse()) <==> CountsEven(PortBits(p), Min(f, 16))
  {
    PowGrows(e, 32);
    var k, algo := Bits(CnxkKey()), NewAlgo(Pow2(f), CnxkKey(), Pow2(e), true);
    QueueIs(algo, p, e, f);
    QueueIs(algo, p.Reverse(), e, f);
    TailIsRemainder(PacketHash(p, k), PacketHash(p.Reverse(), k), f);
    TailIff(p, f);
  }

  /** With any number of queues from the size of the table on, the size takes its place. */
  lemma SameEntryIff(p: Packet, e: nat, queues: nat)
    requires e < 32 && Pow2(e) <= queues
    ensures Pow2(e) < Pow2(32)
    ensures var algo := NewAlgo(queues, CnxkKey(), Pow2(e), true);
      QueueOf(algo, p) == QueueOf(algo, p.Reverse()) <==> CountsEven(PortBits(p), Min(e, 16))
  {
    PowGrows(e, 32);
    var k, algo := Bits(CnxkKey()), NewAlgo(queues, CnxkKey(), Pow2(e), true);
    QueueIsOffset(algo, p, e, queues);
    QueueIsOffset(algo, p.Reverse(), e, queues);
    TailIsRemainder(PacketHash(p, k), PacketHash(p.Reverse(), k), e);
    TailIff(p, e);
  }
}
