/**
  Packets and receive queues in `dpdk-rss-flows.py`.
 */
module RssFlows {
  import opened Basics
  import opened Toeplitz

  type Address = s: seq<Byte> | |s| == 4 || |s| == 16 witness seq(4, _ => Zeros(8))

  /** A port number as the two bytes that are hashed. */
  type Port = s: seq<Byte> | |s| == 2 witness seq(2, _ => Zeros(8))

  datatype Packet = Packet(ipSrc: Address, ipDst: Address, l4Sport: Port, l4Dport: Port) {
    function Reverse(): Packet { Packet(ipDst, ipSrc, l4Dport, l4Sport) }

    function HashData(useL4Port: bool): seq<Byte> {
      ipSrc + ipDst + (if useL4Port then l4Sport + l4Dport else [])
    }
  }

  datatype RssAlgo = RssAlgo(queuesCount: nat, reta: seq<nat>, key: seq<Byte>, useL4Port: bool)

  /** The redirection table spreads its entries over the queues. */
  function NewAlgo(queuesCount: nat, key: seq<Byte>, retaSize: nat, useL4Port: bool): RssAlgo
    requires queuesCount > 0
  {
    RssAlgo(queuesCount, seq(retaSize, i requires 0 <= i < retaSize => i % queuesCount), key, useL4Port)
  }

  // ----- Words as numbers

  function Value(s: seq<bool>): nat {
    if s == [] then 0 else 2 * Value(s[..|s| - 1]) + (if s[|s| - 1] then 1 else 0)
  }

  /** The last `w` binary digits of `n`. */
  function Digits(n: nat, w: nat): (s: seq<bool>)
    ensures |s| == w
  {
    if w == 0 then [] else Digits(n / 2, w - 1) + [n % 2 == 1]
  }

  function And(a: seq<bool>, b: seq<bool>): (r: seq<bool>)
    requires |a| == |b|
    ensures |r| == |a|
  {
    seq(|a|, i requires 0 <= i < |a| => a[i] && b[i])
  }

  function Pow2(e: nat): (r: nat)
    ensures r > 0
  {
    if e == 0 then 1 else 2 * Pow2(e - 1)
  }

  lemma {:induction false} ValueDigits(n: nat, w: nat)
    requires n < Pow2(w)
    ensures Value(Digits(n, w)) == n
  {
    if w > 0 {
      ValueDigits(n / 2, w - 1);
      assert Digits(n, w)[..w - 1] == Digits(n / 2, w - 1);
    }
  }

  lemma {:induction false} AndBound(a: seq<bool>, b: seq<bool>)
    requires |a| == |b|
    ensures Value(And(a, b)) <= Value(b)
  {
    if a != [] {
      var n := |a| - 1;
      assert And(a, b)[..n] == And(a[..n], b[..n]);
      AndBound(a[..n], b[..n]);
    }
  }

  lemma {:induction false} AndNothing(a: seq<bool>)
    ensures Value(And(a, Digits(0, |a|))) == 0
  {
    if a != [] {
      var n := |a| - 1;
      assert And(a, Digits(0, |a|))[..n] == And(a[..n], Digits(0, n));
      AndNothing(a[..n]);
    }
  }

  /** Masking with one less than a power of two is the remainder. */
  lemma {:induction false} MaskIsRemainder(a: seq<bool>, e: nat)
    requires e <= |a|
    ensures Value(And(a, Digits(Pow2(e) - 1, |a|))) == Value(a) % Pow2(e)
  {
    if e == 0 {
      AndNothing(a);
    } else {
      var n, m := |a| - 1, Pow2(e - 1);
      assert (2 * m - 1) / 2 == m - 1;
      assert And(a, Digits(Pow2(e) - 1, |a|))[..n] == And(a[..n], Digits(m - 1, n));
      MaskIsRemainder(a[..n], e - 1);
      OneMoreDigit(Value(a[..n]), if a[n] then 1 else 0, m);
    }
  }

  lemma OneMoreDigit(v: nat, bit: nat, m: nat)
    requires bit < 2 && m > 0
    ensures (2 * v + bit) % (2 * m) == 2 * (v % m) + bit
  {
    assert v == m * (v / m) + v % m;
    RemainderOf(2 * v + bit, 2 * m, v / m, 2 * (v % m) + bit);
  }

  lemma RemainderOf(n: nat, d: nat, q: nat, r: nat)
    requires n == d * q + r && r < d
    ensures n % d == r
  {
    assert n == d * (n / d) + n % d;
    if n / d < q {
      Step(n / d, q, d);
    } else if n / d > q {
      Step(q, n / d, d);
    }
  }

  lemma Step(x: int, y: int, d: nat)
    requires x < y
    ensures d * x + d <= d * y
  {
    assert d * y == d * x + d + d * (y - x - 1);
  }

  // ----- The queue of a packet

  /** The position in the redirection table. */
  function Offset(hash: Word, retaSize: nat): (offset: nat)
    requires 0 < retaSize < Pow2(32)
    ensures offset < retaSize
  {
    ValueDigits(retaSize - 1, 32);
    AndBound(hash, Digits(retaSize - 1, 32));
    Value(And(hash, Digits(retaSize - 1, 32)))
  }

  /** The queue for a hash value, or an index error. */
  function Redirected(reta: seq<nat>, hash: Option<Word>): Option<nat>
    requires |reta| < Pow2(32)
  {
    if hash.None? || reta == [] then None else Some(reta[Offset(hash.value, |reta|)])
  }

  ghost function HashOf(d: seq<bool>, k: seq<bool>): Option<Word> {
    if Covered(d, k) then Some(Hash(d, k, 0)) else None
  }

  ghost function QueueOf(algo: RssAlgo, packet: Packet): Option<nat>
    requires |algo.reta| < Pow2(32)
  {
    Redirected(algo.reta, HashOf(Bits(packet.HashData(algo.useL4Port)), Bits(algo.key)))
  }

  // ----- The same by the fields of the packet

  /** The exclusive or of the key windows at the set bits of the fields: bit `j` of the source
      address counts the window from key bit `j` on, the destination address follows the
      source address, and the ports, source before destination, follow both. */
  ghost function FieldHash(p: Packet, useL4Port: bool, k: seq<bool>): Word {
    var n := 8 * |p.ipSrc|;
    var m := n + 8 * |p.ipDst|;
    var addresses := Xor(Hash(Bits(p.ipSrc), k, 0), Hash(Bits(p.ipDst), k, n));
    if useL4Port then Xor(addresses, Xor(Hash(Bits(p.l4Sport), k, m), Hash(Bits(p.l4Dport), k, m + 16))) else addresses
  }

  /** The key reaches behind every set bit of a field that starts at bit `at` of the data. */
  ghost predicate FieldCovered(d: seq<bool>, k: seq<bool>, at: nat) {
    forall j :: 0 <= j < |d| && d[j] ==> at + j + 32 <= |k|
  }

  ghost predicate FieldsCovered(p: Packet, useL4Port: bool, k: seq<bool>) {
    var n := 8 * |p.ipSrc|;
    var m := n + 8 * |p.ipDst|;
    && FieldCovered(Bits(p.ipSrc), k, 0) && FieldCovered(Bits(p.ipDst), k, n)
    && (useL4Port ==> FieldCovered(Bits(p.l4Sport), k, m) && FieldCovered(Bits(p.l4Dport), k, m + 16))
  }

  lemma BitsConcat(a: seq<Byte>, b: seq<Byte>)
    ensures Bits(a + b) == Bits(a) + Bits(b)
  {
    forall p | 0 <= p < 8 * |a| + 8 * |b| ensures Bits(a + b)[p] == (Bits(a) + Bits(b))[p] {
      if p >= 8 * |a| {
        assert p / 8 == |a| + (p - 8 * |a|) / 8 && p % 8 == (p - 8 * |a|) % 8;
      }
    }
  }

  lemma CoveredConcat(a: seq<bool>, b: seq<bool>, k: seq<bool>, at: nat)
    ensures FieldCovered(a + b, k, at) <==> FieldCovered(a, k, at) && FieldCovered(b, k, at + |a|)
  {
    if FieldCovered(a + b, k, at) {
      assert forall j :: 0 <= j < |a| ==> (a + b)[j] == a[j];
      assert forall j :: 0 <= j < |b| ==> (a + b)[|a| + j] == b[j];
    }
  }

  lemma TwoHashed(x: seq<Byte>, y: seq<Byte>, k: seq<bool>, at: nat, next: nat)
    requires next == at + 8 * |x|
    ensures Hash(Bits(x + y), k, at) == Xor(Hash(Bits(x), k, at), Hash(Bits(y), k, next))
  {
    BitsConcat(x, y);
    HashConcat(Bits(x), Bits(y), k, at);
  }

  lemma HashByFields(p: Packet, useL4Port: bool, k: seq<bool>)
    ensures Hash(Bits(p.HashData(useL4Port)), k, 0) == FieldHash(p, useL4Port, k)
  {
    TwoHashed(p.ipSrc, p.ipDst, k, 0, 8 * |p.ipSrc|);
    if useL4Port {
      HashWithPorts(p, k);
    } else {
      assert p.HashData(false) == p.ipSrc + p.ipDst;
    }
  }

  lemma HashWithPorts(p: Packet, k: seq<bool>)
    ensures var a := p.ipSrc + p.ipDst; var m := 8 * |a|;
      Hash(Bits(p.HashData(true)), k, 0)
        == Xor(Hash(Bits(a), k, 0), Xor(Hash(Bits(p.l4Sport), k, m), Hash(Bits(p.l4Dport), k, m + 16)))
  {
    var a, x := p.ipSrc + p.ipDst, p.l4Sport + p.l4Dport;
    TwoHashed(a, x, k, 0, 8 * |a|);
    TwoHashed(p.l4Sport, p.l4Dport, k, 8 * |a|, 8 * |a| + 16);
  }

  lemma CoveredByFields(p: Packet, useL4Port: bool, k: seq<bool>)
    ensures Covered(Bits(p.HashData(useL4Port)), k) <==> FieldsCovered(p, useL4Port, k)
  {
    var a, x := p.ipSrc + p.ipDst, p.l4Sport + p.l4Dport;
    BitsConcat(p.ipSrc, p.ipDst);
    CoveredConcat(Bits(p.ipSrc), Bits(p.ipDst), k, 0);
    assert Covered(Bits(p.HashData(useL4Port)), k) <==> FieldCovered(Bits(p.HashData(useL4Port)), k, 0);
    if useL4Port {
      BitsConcat(a, x);
      CoveredConcat(Bits(a), Bits(x), k, 0);
      BitsConcat(p.l4Sport, p.l4Dport);
      CoveredConcat(Bits(p.l4Sport), Bits(p.l4Dport), k, 8 * |a|);
    } else {
      assert a + [] == a;
    }
  }

  /** The queue, or an index error if the table is empty or the key too short for the fields. */
  lemma QueueByFields(algo: RssAlgo, p: Packet)
    requires |algo.reta| < Pow2(32)
    ensures var k := Bits(algo.key);
      QueueOf(algo, p) ==
        if algo.reta == [] || !FieldsCovered(p, algo.useL4Port, k) then None
        else Some(algo.reta[Offset(FieldHash(p, algo.useL4Port, k), |algo.reta|)])
  {
    HashByFields(p, algo.useL4Port, Bits(algo.key));
    CoveredByFields(p, algo.useL4Port, Bits(algo.key));
  }

  /** `get_queue_index`; an index error shows as no queue. */
  method GetQueueIndex(algo: RssAlgo, packet: Packet) returns (r: Option<nat>)
    requires |algo.reta| < Pow2(32)
    ensures r == QueueOf(algo, packet)
    ensures var k := Bits(algo.key);
      r == if algo.reta == [] || !FieldsCovered(packet, algo.useL4Port, k) then None
        else Some(algo.reta[Offset(FieldHash(packet, algo.useL4Port, k), |algo.reta|)])
  {
    var hash := ToeplitzHash(packet.HashData(algo.useL4Port), algo.key);
    r := Redirected(algo.reta, hash);
    QueueByFields(algo, packet);
  }

  /** A queue is always one of the queues. */
  lemma QueueInRange(queues: nat, retaSize: nat, key: seq<Byte>, useL4Port: bool, packet: Packet)
    requires queues > 0 && retaSize < Pow2(32)
    ensures var q := QueueOf(NewAlgo(queues, key, retaSize, useL4Port), packet); q.Some? ==> q.value < queues
  {}

  /** For a table whose size is a power of two, as the options require, its entry for the
      hash modulo that size says which. */
  lemma OffsetIsRemainder(hash: Word, e: nat)
    requires e < 32 && Pow2(e) < Pow2(32)
    ensures Offset(hash, Pow2(e)) == Value(hash) % Pow2(e)
  {
    MaskIsRemainder(hash, e);
  }

  lemma QueueNumber(queues: nat, key: seq<Byte>, e: nat, useL4Port: bool, p: Packet)
    requires queues > 0 && e < 32 && Pow2(e) < Pow2(32) && FieldsCovered(p, useL4Port, Bits(key))
    ensures QueueOf(NewAlgo(queues, key, Pow2(e), useL4Port), p)
      == Some(Value(FieldHash(p, useL4Port, Bits(key))) % Pow2(e) % queues)
  {
    var hash := FieldHash(p, useL4Port, Bits(key));
    QueueByFields(NewAlgo(queues, key, Pow2(e), useL4Port), p);
    OffsetIsRemainder(hash, e);
  }

  // ----- A packet and its reverse

  lemma SwappedAddresses(p: Packet, k: seq<bool>, q: nat)
    requires Repeats(k, q) && Multiple(8 * |p.ipSrc|, q) && Multiple(8 * |p.ipDst|, q)
    requires 8 * |p.ipSrc + p.ipDst| + 31 <= |k|
    ensures Hash(Bits(p.ipSrc + p.ipDst), k, 0) == Hash(Bits(p.ipDst + p.ipSrc), k, 0)
  {
    BitsConcat(p.ipSrc, p.ipDst);
    BitsConcat(p.ipDst, p.ipSrc);
    HashSwapped(Bits(p.ipSrc), Bits(p.ipDst), k, q, 0);
  }

  lemma SwappedPorts(x: Port, y: Port, k: seq<bool>, q: nat, at: nat)
    requires Repeats(k, q) && Multiple(16, q) && at + 32 + 31 <= |k|
    ensures Hash(Bits(x + y), k, at) == Hash(Bits(y + x), k, at)
  {
    BitsConcat(x, y);
    BitsConcat(y, x);
    HashSwapped(Bits(x), Bits(y), k, q, at);
  }

  /** With a key that repeats itself after `q` bits, of which both addresses, and the ports
      if they are hashed, are whole multiples, a packet and its reverse hash alike. */
  lemma ReverseHash(p: Packet, useL4Port: bool, k: seq<bool>, q: nat)
    requires Repeats(k, q) && Multiple(8 * |p.ipSrc|, q) && Multiple(8 * |p.ipDst|, q)
    requires useL4Port ==> Multiple(16, q)
    requires 8 * |p.HashData(useL4Port)| + 31 <= |k|
    ensures Hash(Bits(p.HashData(useL4Port)), k, 0) == Hash(Bits(p.Reverse().HashData(useL4Port)), k, 0)
  {
    var a, b := p.ipSrc + p.ipDst, p.ipDst + p.ipSrc;
    SwappedAddresses(p, k, q);
    if useL4Port {
      SwappedPorts(p.l4Sport, p.l4Dport, k, q, 8 * |a|);
      TwoHashed(a, p.l4Sport + p.l4Dport, k, 0, 8 * |a|);
      TwoHashed(b, p.l4Dport + p.l4Sport, k, 0, 8 * |b|);
    } else {
      assert a + [] == a && b + [] == b;
    }
  }

  /** Then they go to the same queue, if the key also reaches behind all that is hashed. */
  lemma ReverseSameQueue(algo: RssAlgo, p: Packet, q: nat)
    requires |algo.reta| < Pow2(32) && Repeats(Bits(algo.key), q) && |p.HashData(algo.useL4Port)| + 4 <= |algo.key|
    requires Multiple(8 * |p.ipSrc|, q) && Multiple(8 * |p.ipDst|, q) && (algo.useL4Port ==> Multiple(16, q))
    ensures QueueOf(algo, p) == QueueOf(algo, p.Reverse())
  {
    ReverseHash(p, algo.useL4Port, Bits(algo.key), q);
  }

  ghost predicate FourLater(key: seq<Byte>, i: nat) { i + 4 < |key| ==> key[i] == key[i + 4] }

  lemma PeriodFour(key: seq<Byte>)
    requires forall i: nat :: FourLater(key, i)
    ensures Repeats(Bits(key), 32)
  {
    forall i: nat ensures RepeatsAt(Bits(key), 32, i) {
      if i + 32 < 8 * |key| {
        assert (i + 32) / 8 == i / 8 + 4 && (i + 32) % 8 == i % 8;
        assert FourLater(key, i / 8);
      }
    }
  }

  // ----- The cnxk key

  function KeyByte(n: nat): Byte { Digits(n, 8) }

  /** 48 bytes, the same four again and again. */
  function CnxkKey(): seq<Byte> {
    seq(48, i requires 0 <= i < 48 =>
      if i % 4 == 0 then KeyByte(0xfe)
      else if i % 4 == 1 then KeyByte(0xed)
      else if i % 4 == 2 then KeyByte(0x0b)
      else KeyByte(0xad))
  }

  lemma CnxkRepeats()
    ensures |CnxkKey()| == 48 && Repeats(Bits(CnxkKey()), 32)
  {
    forall i: nat ensures FourLater(CnxkKey(), i) {
      assert (i + 4) % 4 == i % 4;
    }
    PeriodFour(CnxkKey());
  }

  /** The cnxk key sends packets between any two IP addresses and their replies to one
      queue as long as ports are not hashed. */
  lemma CnxkSymmetry(p: Packet, queues: nat, retaSize: nat)
    requires queues > 0 && retaSize < Pow2(32)
    ensures var algo := NewAlgo(queues, CnxkKey(), retaSize, false); QueueOf(algo, p) == QueueOf(algo, p.Reverse())
  {
    CnxkRepeats();
    assert Multiple(32, 32) && Multiple(64, 32) && Multiple(96, 32) && Multiple(128, 32);
    ReverseSameQueue(NewAlgo(queues, CnxkKey(), retaSize, false), p, 32);
  }
}
