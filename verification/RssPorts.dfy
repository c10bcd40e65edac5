/**
  The cnxk key when ports are hashed: which packets and their replies still hash alike.
 */
module RssPorts {
  import opened Basics
  import opened Toeplitz
  import opened RssFlows

  // ----- What swapping two fields changes

  /** The number of bits that `f` has from `from` on, among `n`, is odd. */
  function Odd(f: nat -> bool, from: nat, n: nat): bool {
    if n == 0 then false else Odd(f, from, n - 1) != f(from + n - 1)
  }

  /** The key windows of a bit in either of two fields, taken together. */
  function Both(k: seq<bool>, m: nat, at: nat): nat -> Word {
    (p: nat) => Xor(Window(k, at + p), Window(k, at + m + p))
  }

  lemma {:induction false} HashBoth(d: seq<bool>, k: seq<bool>, m: nat, at: nat, n: nat)
    requires n <= |d|
    ensures Xor(HashTo(d, WindowsAt(k, at), n), HashTo(d, WindowsAt(k, at + m), n)) == HashTo(d, Both(k, m, at), n)
  {
    if n == 0 {
      XorZero(ZERO);
    } else {
      var x, y := WindowsAt(k, at)(n - 1), WindowsAt(k, at + m)(n - 1);
      HashBoth(d, k, m, at, n - 1);
      XorPairs(HashTo(d, WindowsAt(k, at), n - 1), Term(d[n - 1], x), HashTo(d, WindowsAt(k, at + m), n - 1),
        Term(d[n - 1], y));
      XorZero(ZERO);
    }
  }

  /** Swapping two fields of equal size changes the hash by the windows of the bits in
      which they differ. */
  lemma SwapDifference(x: seq<bool>, y: seq<bool>, k: seq<bool>, at: nat)
    requires |x| == |y|
    ensures Xor(Hash(x + y, k, at), Hash(y + x, k, at)) == HashTo(XorBits(x, y), Both(k, |x|, at), |x|)
  {
    var later := at + |x|;
    TwoFields(x, y, k, at, later);
    TwoFields(y, x, k, at, later);
    FieldsDiffer(x, y, k, at, later);
    Crossed(Hash(x, k, at), Hash(y, k, later), Hash(y, k, at), Hash(x, k, later));
  }

  lemma TwoFields(x: seq<bool>, y: seq<bool>, k: seq<bool>, at: nat, later: nat)
    requires later == at + |x|
    ensures Hash(x + y, k, at) == Xor(Hash(x, k, at), Hash(y, k, later))
  {
    HashConcat(x, y, k, at);
  }

  lemma Crossed(a: Word, b: Word, c: Word, d: Word)
    ensures Xor(Xor(a, b), Xor(c, d)) == Xor(Xor(a, c), Xor(d, b))
  {
    XorPairs(a, b, c, d);
    XorSwap(b, d);
  }

  lemma FieldsDiffer(x: seq<bool>, y: seq<bool>, k: seq<bool>, at: nat, later: nat)
    requires |x| == |y| && later == at + |x|
    ensures Xor(Xor(Hash(x, k, at), Hash(y, k, at)), Xor(Hash(x, k, later), Hash(y, k, later)))
      == HashTo(XorBits(x, y), Both(k, |x|, at), |x|)
  {
    Linear(x, y, k, at);
    Linear(x, y, k, later);
    HashBoth(XorBits(x, y), k, |x|, at, |x|);
  }

  lemma XorNothing(a: Word, b: Word)
    ensures Xor(a, b) == ZERO <==> a == b
  {
    XorSelf(a);
    if Xor(a, b) == ZERO {
      forall i | 0 <= i < 32 ensures a[i] == b[i] {
        XorAt(a, b, i);
      }
    }
  }

  /** Bit `b` of the windows at the set bits of `d`. */
  function Column(d: seq<bool>, w: nat -> Word, b: nat): nat -> bool
    requires b < 32
  {
    (p: nat) => p < |d| && d[p] && w(p)[b]
  }

  lemma {:induction false} HashBit(d: seq<bool>, w: nat -> Word, n: nat, b: nat)
    requires n <= |d| && b < 32
    ensures HashTo(d, w, n)[b] == Odd(Column(d, w, b), 0, n)
  {
    if n > 0 {
      HashBit(d, w, n - 1, b);
      XorAt(HashTo(d, w, n - 1), Term(d[n - 1], w(n - 1)), b);
    }
  }

  // ----- Sixteen bits in a ring

  function Ring(s: seq<bool>, i: nat): bool
    requires |s| == 16
  {
    s[i % 16]
  }

  lemma {:induction false} OddFirst(f: nat -> bool, from: nat, n: nat)
    ensures Odd(f, from, n + 1) == (f(from) != Odd(f, from + 1, n))
  {
    if n > 0 {
      OddFirst(f, from, n - 1);
    }
  }

  lemma {:induction false} OddSame(f: nat -> bool, g: nat -> bool, n: nat)
    requires forall i: nat :: i < n ==> f(i) == g(i)
    ensures Odd(f, 0, n) == Odd(g, 0, n)
  {
    if n > 0 {
      OddSame(f, g, n - 1);
    }
  }

  /** Around a ring it does not matter where the count starts. */
  lemma {:induction false} OddAround(f: nat -> bool, from: nat)
    requires forall i: nat :: f(i) == f(i % 16)
    ensures Odd(f, from, 16) == Odd(f, 0, 16)
  {
    if from > 0 {
      OddFirst(f, from - 1, 15);
      assert f(from + 15) == f((from + 15) % 16) == f((from - 1) % 16) == f(from - 1);
      OddAround(f, from - 1);
    }
  }

  /** The positions, from some position of the ring on, at which the two halves of the
      repeated part of the cnxk key differ: 0xfeed and 0x0bad. */
  function Halves(): seq<bool> {
    [true, true, true, true, false, true, false, true, false, true, false, false, false, false, false, false]
  }

  /** The bits of `e` in one row: those for which the halves differ `b` positions later. */
  function Row(e: seq<bool>, b: nat): nat -> bool
    requires |e| == 16
  {
    (p: nat) => Ring(e, p) && Ring(Halves(), p + b)
  }

  /** That is seven bits of the ring, counted from `c`. */
  function Seven(e: seq<bool>, c: nat): bool
    requires |e| == 16
  {
    (Five(e, c, 0, 1, 2, 3, 5) != Ring(e, c + 7)) != Ring(e, c + 9)
  }

  function Five(e: seq<bool>, c: nat, i: nat, j: nat, k: nat, l: nat, m: nat): bool
    requires |e| == 16
  {
    (((Ring(e, c + i) != Ring(e, c + j)) != Ring(e, c + k)) != Ring(e, c + l)) != Ring(e, c + m)
  }

  lemma RowAt(e: seq<bool>, c: nat, t: nat)
    requires |e| == 16 && c <= 16 && t < 16
    ensures Row(e, 16 - c)(c + t) == (Ring(e, c + t) && Halves()[t])
  {
    assert (c + t) + (16 - c) == 16 + t;
  }

  lemma OddMore(e: seq<bool>, c: nat, t: nat)
    requires |e| == 16 && c <= 16 && t < 16
    ensures var f := Row(e, 16 - c); Odd(f, c, t + 1) == (Odd(f, c, t) != (Ring(e, c + t) && Halves()[t]))
  {
    RowAt(e, c, t);
  }

  lemma RowIsSeven(e: seq<bool>, c: nat)
    requires |e| == 16 && c <= 16
    ensures Odd(Row(e, 16 - c), c, |e|) == Seven(e, c)
  {
    var f := Row(e, 16 - c);
    OddMore(e, c, 0);
    OddMore(e, c, 1);
    OddMore(e, c, 2);
    OddMore(e, c, 3);
    OddMore(e, c, 4);
    OddMore(e, c, 5);
    assert Odd(f, c, 6) == Five(e, c, 0, 1, 2, 3, 5);
    OddMore(e, c, 6);
    OddMore(e, c, 7);
    OddMore(e, c, 8);
    OddMore(e, c, 9);
    assert Odd(f, c, 10) == Seven(e, c);
    forall t | 10 <= t < 16 ensures Odd(f, c, t + 1) == Odd(f, c, t) {
      OddMore(e, c, t);
    }
    assert Odd(f, c, 16) == Odd(f, c, 15) == Odd(f, c, 14) == Odd(f, c, 13) == Odd(f, c, 12) == Odd(f, c, 11);
  }

  lemma AroundRing(e: seq<bool>, i: nat)
    requires |e| == 16
    ensures Ring(e, i + 16) == Ring(e, i)
  {}

  /** Adding up the equations, each bit counted twice drops out: first for seven bits. */
  lemma FirstHalving(e: seq<bool>, c: nat)
    requires |e| == 16
    requires !Seven(e, c) && !Seven(e, c + 1) && !Seven(e, c + 2) && !Seven(e, c + 3)
    requires !Seven(e, c + 5) && !Seven(e, c + 7) && !Seven(e, c + 9)
    ensures !Five(e, c, 0, 4, 6, 10, 14)
  {
    AroundRing(e, c + 2);
  }

  lemma SecondHalving(e: seq<bool>, c: nat)
    requires |e| == 16
    requires !Five(e, c, 0, 4, 6, 10, 14) && !Five(e, c + 4, 0, 4, 6, 10, 14) && !Five(e, c + 6, 0, 4, 6, 10, 14)
    requires !Five(e, c + 10, 0, 4, 6, 10, 14) && !Five(e, c + 14, 0, 4, 6, 10, 14)
    ensures (Ring(e, c) != Ring(e, c + 4)) == Ring(e, c + 8)
  {
    AroundRing(e, c);
    AroundRing(e, c + 4);
    AroundRing(e, c + 8);
    AroundRing(e, c + 12);
  }

  /** If every count is even, no bit is set. */
  lemma NoneSet(e: seq<bool>)
    requires |e| == 16 && forall c: nat :: !Seven(e, c)
    ensures forall c: nat :: c < 16 ==> !e[c]
  {
    forall c: nat ensures !Five(e, c, 0, 4, 6, 10, 14) {
      FirstHalving(e, c);
    }
    forall c: nat ensures (Ring(e, c) != Ring(e, c + 4)) == Ring(e, c + 8) {
      SecondHalving(e, c);
    }
    forall c: nat | c < 16 ensures !e[c] {
      ThirdHalving(e, c + 8);
    }
  }

  lemma ThirdHalving(e: seq<bool>, c: nat)
    requires |e| == 16 && forall d: nat :: (Ring(e, d) != Ring(e, d + 4)) == Ring(e, d + 8)
    ensures !Ring(e, c + 8)
  {
    AroundRing(e, c);
    assert (Ring(e, c + 4) != Ring(e, c + 8)) == Ring(e, c + 12);
    assert (Ring(e, c + 8) != Ring(e, c + 12)) == Ring(e, c + 16);
  }

  // ----- The key

  /** The four bytes of which the key is made. */
  function Quarter(i: nat): Byte
    requires i < 4
  {
    KeyByte(if i == 0 then 0xfe else if i == 1 then 0xed else if i == 2 then 0x0b else 0xad)
  }

  lemma ByteFe()
    ensures KeyByte(0xfe) == [true, true, true, true, true, true, true, false]
  {}

  lemma ByteEd()
    ensures KeyByte(0xed) == [true, true, true, false, true, true, false, true]
  {}

  lemma Byte0b()
    ensures KeyByte(0x0b) == [false, false, false, false, true, false, true, true]
  {}

  lemma ByteAd()
    ensures KeyByte(0xad) == [true, false, true, false, true, true, false, true]
  {}

  lemma HalfBytes(i: nat, i': nat, r: nat)
    requires i < 4 && i' < 4 && (i' == i + 2 || i == i' + 2) && r < 8
    ensures (Quarter(i)[r] != Quarter(i')[r]) == Halves()[8 * (i % 2) + r]
  {
    ByteFe();
    ByteEd();
    Byte0b();
    ByteAd();
  }

  lemma Place(j: nat, q: nat, i: nat, r: nat)
    requires j == 32 * q + 8 * i + r && i < 4 && r < 8
    ensures j / 8 == 4 * q + i && j % 8 == r && (4 * q + i) % 4 == i && j % 16 == 8 * (i % 2) + r
  {
    RemainderOf(j, 16, 2 * q + i / 2, 8 * (i % 2) + r);
  }

  lemma CnxkBit(j: nat, q: nat, i: nat, r: nat)
    requires j == 32 * q + 8 * i + r && j < 384 && i < 4 && r < 8
    ensures Bits(CnxkKey())[j] == Quarter(i)[r]
  {
    Place(j, q, i, r);
    assert CnxkKey()[4 * q + i] == Quarter(i);
  }

  predicate HalfAt(k: seq<bool>, j: nat) { j + 16 < |k| ==> (k[j] != k[j + 16]) == Ring(Halves(), j) }

  /** Where a key differs from itself 16 bits later. */
  ghost predicate HalvesDiffer(k: seq<bool>) { forall j: nat :: HalfAt(k, j) }

  predicate QuarterAt(k: seq<bool>, j: nat, q: nat, i: nat, r: nat) {
    j == 32 * q + 8 * i + r && j < |k| && i < 4 && r < 8 ==> k[j] == Quarter(i)[r]
  }

  /** The four bytes again and again. */
  ghost predicate Quarters(k: seq<bool>) { forall j: nat, q: nat, i: nat, r: nat :: QuarterAt(k, j, q, i, r) }

  lemma CnxkQuarters()
    ensures |Bits(CnxkKey())| == 384 && Quarters(Bits(CnxkKey()))
  {
    forall j: nat, q: nat, i: nat, r: nat ensures QuarterAt(Bits(CnxkKey()), j, q, i, r) {
      if j == 32 * q + 8 * i + r && j < 384 && i < 4 && r < 8 {
        CnxkBit(j, q, i, r);
      }
    }
  }

  lemma QuartersHalves(k: seq<bool>)
    requires Quarters(k)
    ensures HalvesDiffer(k)
  {
    forall j: nat ensures HalfAt(k, j) {
      if j + 16 < |k| {
        HalfOf(k, j, j / 32, j % 32 / 8, j % 8);
      }
    }
  }

  lemma HalfOf(k: seq<bool>, j: nat, q: nat, i: nat, r: nat)
    requires Quarters(k) && j == 32 * q + 8 * i + r && j + 16 < |k| && i < 4 && r < 8
    ensures HalfAt(k, j)
  {
    Place(j, q, i, r);
    assert QuarterAt(k, j, q, i, r);
    var q', i' := if i < 2 then q else q + 1, if i < 2 then i + 2 else i - 2;
    assert QuarterAt(k, j + 16, q', i', r);
    QuartersDiffer(k, j, i, i', r);
  }

  lemma QuartersDiffer(k: seq<bool>, j: nat, i: nat, i': nat, r: nat)
    requires i < 4 && i' < 4 && (i' == i + 2 || i == i' + 2) && r < 8 && j % 16 == 8 * (i % 2) + r
    requires j + 16 < |k| && k[j] == Quarter(i)[r] && k[j + 16] == Quarter(i')[r]
    ensures HalfAt(k, j)
  {
    HalfBytes(i, i', r);
  }

  // ----- Ports

  /** A count over the bits of two port numbers in the hash is one in the ring. */
  lemma ColumnIsRow(e: seq<bool>, k: seq<bool>, at: nat, b: nat)
    requires |e| == 16 && HalvesDiffer(k) && at % 16 == 0 && at + 64 <= |k| && b < 32
    ensures Odd(Column(e, Both(k, 16, at), b), 0, 16) == Odd(Row(e, b), 0, 16)
  {
    var f, g := Column(e, Both(k, 16, at), b), Row(e, b);
    forall i: nat | i < 16 ensures f(i) == g(i) {
      BothAt(k, at, at / 16, i, b);
    }
    OddSame(f, g, 16);
  }

  lemma WindowAt(k: seq<bool>, p: nat, b: nat, q: nat)
    requires p + 32 <= |k| && b < 32 && q == p + b
    ensures Window(k, p)[b] == k[q]
  {}

  lemma TwoWindows(k: seq<bool>, p: nat, p': nat, b: nat, j: nat)
    requires p' == p + 16 && p + 48 <= |k| && b < 32 && j == p + b
    ensures Xor(Window(k, p), Window(k, p'))[b] == (k[j] != k[j + 16])
  {
    XorAt(Window(k, p), Window(k, p'), b);
    WindowAt(k, p, b, j);
    WindowAt(k, p', b, j + 16);
  }

  lemma RingLater(s: seq<bool>, q: nat, i: nat)
    requires |s| == 16
    ensures Ring(s, 16 * q + i) == Ring(s, i)
  {}

  lemma HalfLater(k: seq<bool>, q: nat, j: nat)
    requires HalvesDiffer(k) && 16 * q + j + 16 < |k|
    ensures (k[16 * q + j] != k[16 * q + j + 16]) == Ring(Halves(), j)
  {
    assert HalfAt(k, 16 * q + j);
    RingLater(Halves(), q, j);
  }

  lemma BothAt(k: seq<bool>, at: nat, q: nat, i: nat, b: nat)
    requires HalvesDiffer(k) && at == 16 * q && at + 64 <= |k| && i < 16 && b < 32
    ensures Both(k, 16, at)(i)[b] == Ring(Halves(), i + b)
  {
    BothIs(k, at, i, b, at + (i + b));
    HalfLater(k, q, i + b);
  }

  lemma BothIs(k: seq<bool>, at: nat, i: nat, b: nat, j: nat)
    requires j == at + (i + b) && at + 64 <= |k| && i < 16 && b < 32
    ensures Both(k, 16, at)(i)[b] == (k[j] != k[j + 16])
  {
    TwoWindows(k, at + i, at + 16 + i, b, j);
  }

  /** If every row has an even count, each seven bits cancel out. */
  lemma SevenCancel(e: seq<bool>, c: nat)
    requires |e| == 16 && forall b: nat :: b <= 16 ==> Odd(Row(e, b), 0, |e|) == false
    ensures Seven(e, c) == false
  {
    RowSeven(e, c % 16);
    SameRing(e, c, c / 16, c % 16);
  }

  lemma RowSeven(e: seq<bool>, d: nat)
    requires |e| == 16 && d < 16 && Odd(Row(e, 16 - d), 0, |e|) == false
    ensures Seven(e, d) == false
  {
    RowAround(e, d);
    RowIsSeven(e, d);
  }

  lemma RowCancels(e: seq<bool>, k: seq<bool>, at: nat, b: nat)
    requires |e| == 16 && HalvesDiffer(k) && at % 16 == 0 && at + 64 <= |k| && b < 32
    requires HashTo(e, Both(k, 16, at), |e|) == ZERO
    ensures Odd(Row(e, b), 0, |e|) == false
  {
    HashBit(e, Both(k, 16, at), 16, b);
    ColumnIsRow(e, k, at, b);
  }

  lemma RowAround(e: seq<bool>, d: nat)
    requires |e| == 16 && d <= 16
    ensures Odd(Row(e, 16 - d), d, |e|) == Odd(Row(e, 16 - d), 0, |e|)
  {
    forall i: nat ensures Row(e, 16 - d)(i) == Row(e, 16 - d)(i % 16) {
      RingLater(e, i / 16, i % 16);
      RingLater(Halves(), i / 16, i % 16 + (16 - d));
    }
    OddAround(Row(e, 16 - d), d);
  }

  lemma SameRing(e: seq<bool>, c: nat, q: nat, d: nat)
    requires |e| == 16 && c == 16 * q + d
    ensures Seven(e, c) == Seven(e, d)
  {
    RingLater(e, q, d);
    RingLater(e, q, d + 1);
    RingLater(e, q, d + 2);
    RingLater(e, q, d + 3);
    RingLater(e, q, d + 5);
    RingLater(e, q, d + 7);
    RingLater(e, q, d + 9);
  }

  lemma SwapPorts(x: seq<bool>, y: seq<bool>, k: seq<bool>, at: nat)
    requires |x| == |y| == 16 && HalvesDiffer(k) && at % 16 == 0 && at + 64 <= |k|
    ensures Hash(x + y, k, at) == Hash(y + x, k, at) <==> x == y
  {
    var e := XorBits(x, y);
    if Hash(x + y, k, at) == Hash(y + x, k, at) {
      SwapDifference(x, y, k, at);
      XorNothing(Hash(x + y, k, at), Hash(y + x, k, at));
      forall b: nat | b <= 16 ensures Odd(Row(e, b), 0, |e|) == false {
        RowCancels(e, k, at, b);
      }
      forall c: nat ensures !Seven(e, c) {
        SevenCancel(e, c);
      }
      NoneSet(e);
      assert forall i :: 0 <= i < 16 ==> !e[i] && x[i] == y[i];
    }
  }

  lemma BitsSame(a: seq<Byte>, b: seq<Byte>)
    requires |a| == |b|
    ensures Bits(a) == Bits(b) <==> a == b
  {
    if Bits(a) == Bits(b) {
      forall i | 0 <= i < |a| ensures a[i] == b[i] {
        ByteAt(a, i);
        ByteAt(b, i);
      }
    }
  }

  lemma XorCancels(a: Word, b: Word, c: Word)
    ensures Xor(a, b) == Xor(a, c) <==> b == c
  {
    XorNothing(Xor(a, b), Xor(a, c));
    XorNothing(b, c);
    XorPairs(a, b, a, c);
    XorSelf(a);
    ZeroXor(Xor(b, c));
  }

  /** With ports hashed, the cnxk key hashes a packet and its reverse alike if and only if
      the two ports are the same, whatever the addresses. */
  lemma CnxkPorts(p: Packet)
    ensures Hash(Bits(p.HashData(true)), Bits(CnxkKey()), 0)
      == Hash(Bits(p.Reverse().HashData(true)), Bits(CnxkKey()), 0)
      <==> p.l4Sport == p.l4Dport
  {
    var a, b, k := p.ipSrc + p.ipDst, p.ipDst + p.ipSrc, Bits(CnxkKey());
    CnxkQuarters();
    QuartersHalves(k);
    CnxkAddresses(p);
    TwoHashed(a, p.l4Sport + p.l4Dport, k, 0, 8 * |a|);
    TwoHashed(b, p.l4Dport + p.l4Sport, k, 0, 8 * |b|);
    BitsConcat(p.l4Sport, p.l4Dport);
    BitsConcat(p.l4Dport, p.l4Sport);
    SwapPorts(Bits(p.l4Sport), Bits(p.l4Dport), k, 8 * |a|);
    BitsSame(p.l4Sport, p.l4Dport);
    XorCancels(Hash(Bits(a), k, 0), Hash(Bits(p.l4Sport + p.l4Dport), k, 8 * |a|),
      Hash(Bits(p.l4Dport + p.l4Sport), k, 8 * |a|));
  }

  /** So between equal ports a packet and its reverse go to one queue, whatever the table. */
  lemma EqualPorts(p: Packet, queues: nat, retaSize: nat)
    requires queues > 0 && retaSize < Pow2(32) && p.l4Sport == p.l4Dport
    ensures var algo := NewAlgo(queues, CnxkKey(), retaSize, true); QueueOf(algo, p) == QueueOf(algo, p.Reverse())
  {
    CnxkPorts(p);
  }

  lemma CnxkAddresses(p: Packet)
    ensures Hash(Bits(p.ipSrc + p.ipDst), Bits(CnxkKey()), 0) == Hash(Bits(p.ipDst + p.ipSrc), Bits(CnxkKey()), 0)
    ensures 8 * |p.ipSrc + p.ipDst| % 16 == 0 && 8 * |p.ipSrc + p.ipDst| + 64 <= 384
  {
    CnxkRepeats();
    SwapAddresses(p, Bits(CnxkKey()));
  }

  lemma SwapAddresses(p: Packet, k: seq<bool>)
    requires |k| == 384 && Repeats(k, 32)
    ensures Hash(Bits(p.ipSrc + p.ipDst), k, 0) == Hash(Bits(p.ipDst + p.ipSrc), k, 0)
    ensures 8 * |p.ipSrc + p.ipDst| % 16 == 0 && 8 * |p.ipSrc + p.ipDst| + 64 <= 384
  {
    AddressBits(p.ipSrc);
    AddressBits(p.ipDst);
    SwappedAddresses(p, k, 32);
  }

  lemma AddressBits(a: Address)
    ensures Multiple(8 * |a|, 32) && (8 * |a| == 32 || 8 * |a| == 128)
  {
    assert Multiple(32, 32) && Multiple(64, 32) && Multiple(96, 32) && Multiple(128, 32);
  }

  // ----- A reply in another queue

  /** From address 0 to itself, from port 0x4000 to port 0. */
  function Request(): Packet {
    Packet(seq(4, _ => Zeros(8)), seq(4, _ => Zeros(8)), [Zeros(8)[1 := true], Zeros(8)], seq(2, _ => Zeros(8)))
  }

  lemma RequestBits()
    ensures Bits(Request().HashData(true)) == Zeros(64) + (OneAt(16, 1) + Zeros(16))
    ensures Bits(Request().Reverse().HashData(true)) == Zeros(64) + (Zeros(16) + OneAt(16, 1))
  {}

  lemma BehindZeros(m: nat, x: seq<bool>, k: seq<bool>)
    ensures Hash(Zeros(m) + x, k, 0) == Hash(x, k, m)
  {
    TwoFields(Zeros(m), x, k, 0, m);
    HashNone(k, m, 0);
    ZeroXor(Hash(x, k, m));
  }

  lemma RequestHashes(k: seq<bool>)
    ensures Hash(Bits(Request().HashData(true)), k, 0) == Window(k, 65)
    ensures Hash(Bits(Request().Reverse().HashData(true)), k, 0) == Window(k, 81)
  {
    RequestBits();
    BehindZeros(64, OneAt(16, 1) + Zeros(16), k);
    BehindZeros(64, Zeros(16) + OneAt(16, 1), k);
    OneSet(k, 16, 64, 1);
  }

  lemma LastBit(hash: Word, retaSize: nat)
    requires 0 < retaSize < Pow2(32) && retaSize % 2 == 0
    ensures Offset(hash, retaSize) % 2 == if hash[31] then 1 else 0
  {
    assert Digits(retaSize - 1, 32)[31];
  }

  /** With two queues and a table of even size, this packet and its reply are sent to
      different queues. */
  lemma OtherQueue(retaSize: nat)
    requires 0 < retaSize < Pow2(32) && retaSize % 2 == 0
    ensures var algo := NewAlgo(2, CnxkKey(), retaSize, true);
      QueueOf(algo, Request()) == Some(1) && QueueOf(algo, Request().Reverse()) == Some(0)
  {
    var k := Bits(CnxkKey());
    RequestHashes(k);
    CnxkWindows();
    TwoQueues(NewAlgo(2, CnxkKey(), retaSize, true), Request(), Window(k, 65));
    TwoQueues(NewAlgo(2, CnxkKey(), retaSize, true), Request().Reverse(), Window(k, 81));
  }

  lemma CnxkWindows()
    ensures |Bits(CnxkKey())| == 384 && Window(Bits(CnxkKey()), 65)[31] && !Window(Bits(CnxkKey()), 81)[31]
  {
    CnxkTops();
    var k := Bits(CnxkKey());
    WindowAt(k, 65, 31, 96);
    WindowAt(k, 81, 31, 112);
  }

  lemma CnxkTops()
    ensures Bits(CnxkKey())[96] && !Bits(CnxkKey())[112]
  {
    CnxkBit(96, 3, 0, 0);
    CnxkBit(112, 3, 2, 0);
    QuarterTops();
  }

  lemma QuarterTops()
    ensures Quarter(0)[0] && !Quarter(2)[0]
  {
    ByteFe();
    Byte0b();
  }

  lemma TwoQueues(algo: RssAlgo, p: Packet, hash: Word)
    requires 0 < |algo.reta| < Pow2(32) && |algo.reta| % 2 == 0 && algo == NewAlgo(2, algo.key, |algo.reta|, true)
    requires Hash(Bits(p.HashData(true)), Bits(algo.key), 0) == hash && |algo.key| == 48
    ensures QueueOf(algo, p) == Some(if hash[31] then 1 else 0)
  {
    LastBit(hash, |algo.reta|);
  }
}
