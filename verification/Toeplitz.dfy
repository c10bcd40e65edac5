/**
  The receive side scaling hash of `dpdk-rss-flows.py`. Bytes and 32-bit words are bit
  strings, most significant bit first.
 */
module Toeplitz {
  import opened Basics

  type Byte = s: seq<bool> | |s| == 8 witness Zeros(8)
  type Word = s: seq<bool> | |s| == 32 witness Zeros(32)

  function Zeros(n: nat): (s: seq<bool>)
    ensures |s| == n
  {
    seq(n, _ => false)
  }

  const ZERO: Word := Zeros(32)

  function Xor(a: Word, b: Word): Word { Differences(a, b, |a|) }

  /** Where the first `n` bits differ. */
  function Differences(a: seq<bool>, b: seq<bool>, n: nat): (s: seq<bool>)
    requires n <= |a| && n <= |b|
    ensures |s| == n
  {
    if n == 0 then [] else Differences(a, b, n - 1) + [a[n - 1] != b[n - 1]]
  }

  lemma {:induction false} DifferenceAt(a: seq<bool>, b: seq<bool>, n: nat, i: nat)
    requires i < n <= |a| && n <= |b|
    ensures Differences(a, b, n)[i] == (a[i] != b[i])
  {
    if i < n - 1 {
      DifferenceAt(a, b, n - 1, i);
    }
  }

  lemma XorAt(a: Word, b: Word, i: nat)
    requires i < 32
    ensures Xor(a, b)[i] == (a[i] != b[i])
  {
    DifferenceAt(a, b, 32, i);
  }

  function Or(a: Word, b: Word): Word { seq(32, i requires 0 <= i < 32 => a[i] || b[i]) }

  /** `b << n` as a word. */
  function Placed(b: Byte, n: nat): Word
    requires n <= 24
  {
    Zeros(24 - n) + b + Zeros(n)
  }

  /** `a << n`, truncated to 32 bits. */
  function Shl(a: Word, n: nat): Word
    requires n < 32
  {
    a[n..] + Zeros(n)
  }

  /** `b >> n` as a word. */
  function Shr(b: Byte, n: nat): Word
    requires n <= 8
  {
    Zeros(24 + n) + b[..8 - n]
  }

  /** The bits of a byte string in order. */
  function Bits(s: seq<Byte>): (r: seq<bool>)
    ensures |r| == 8 * |s|
  {
    seq(8 * |s|, p requires 0 <= p < 8 * |s| => s[p / 8][p % 8])
  }

  // ----- The hash as its definition has it

  /** The 32 key bits from position `p` on. */
  function Window(k: seq<bool>, p: nat): Word {
    if p + 32 <= |k| then k[p..p + 32] else ZERO
  }

  function WindowsAt(k: seq<bool>, at: nat): nat -> Word { (p: nat) => Window(k, at + p) }

  function Term(bit: bool, x: Word): Word { if bit then x else ZERO }

  /** The exclusive or of the windows `w` at the set bits among the first `n` of `d`. */
  function HashTo(d: seq<bool>, w: nat -> Word, n: nat): Word
    requires n <= |d|
  {
    if n == 0 then ZERO else Xor(HashTo(d, w, n - 1), Term(d[n - 1], w(n - 1)))
  }

  /** The hash of `d`, whose first bit is at position `at` of the data. */
  function Hash(d: seq<bool>, k: seq<bool>, at: nat): Word { HashTo(d, WindowsAt(k, at), |d|) }

  /** The key reaches behind every set bit. */
  ghost predicate Covered(d: seq<bool>, k: seq<bool>) {
    forall p :: 0 <= p < |d| && d[p] ==> p + 32 <= |k|
  }

  // ----- The program

  /** The key word that the inner loop forms for bit `j` of byte `i`, or an index error. */
  method Keyword(key: seq<Byte>, i: nat, j: nat) returns (r: Option<Word>)
    requires j < 8
    ensures r == if 8 * i + j + 32 <= 8 * |key| then Some(Window(Bits(key), 8 * i + j)) else None
  {
    if i + 3 >= |key| {
      return None;
    }
    var keyword := ZERO;
    keyword := Or(keyword, Placed(key[i], 24));
    keyword := Or(keyword, Placed(key[i + 1], 16));
    keyword := Or(keyword, Placed(key[i + 2], 8));
    keyword := Or(keyword, Placed(key[i + 3], 0));
    FourBytes(key, i);
    if j > 0 {
      keyword := Shl(keyword, j);
      if i + 4 >= |key| {
        return None;
      }
      keyword := Or(keyword, Shr(key[i + 4], 8 - j));
      Shifted(key, i, j);
    }
    return Some(keyword);
  }

  lemma FourBytes(key: seq<Byte>, i: nat)
    requires i + 4 <= |key|
    ensures Or(Or(Or(Or(ZERO, Placed(key[i], 24)), Placed(key[i + 1], 16)), Placed(key[i + 2], 8)),
               Placed(key[i + 3], 0))
      == Window(Bits(key), 8 * i)
  {
    var a: seq<bool>, b: seq<bool>, c: seq<bool>, d: seq<bool> := key[i], key[i + 1], key[i + 2], key[i + 3];
    assert ZERO == [] + Zeros(32) && [] + a == a;
    OrNext([], a, 24);
    OrNext(a, b, 16);
    OrNext(a + b, c, 8);
    OrNext(a + b + c, d, 0);
    assert (a + b + c + d) + Zeros(0) == a + b + c + d;
    ByteAt(key, i);
    ByteAt(key, i + 1);
    ByteAt(key, i + 2);
    ByteAt(key, i + 3);
    InFour(Bits(key), 8 * i);
  }

  lemma InFour(k: seq<bool>, p: nat)
    requires p + 32 <= |k|
    ensures k[p..p + 32] == k[p..p + 8] + k[p + 8..p + 16] + k[p + 16..p + 24] + k[p + 24..p + 32]
  {}

  lemma ByteAt(key: seq<Byte>, i: nat)
    requires i < |key|
    ensures Bits(key)[8 * i..8 * i + 8] == key[i]
  {
    forall t | 0 <= t < 8 ensures Bits(key)[8 * i + t] == key[i][t] {
      BitAt(i, t);
    }
  }

  lemma BitAt(i: nat, t: nat)
    requires t < 8
    ensures (8 * i + t) / 8 == i && (8 * i + t) % 8 == t
  {}

  /** Filling in the next byte of a word. */
  lemma OrNext(s: seq<bool>, b: Byte, n: nat)
    requires |s| + 8 + n == 32
    ensures n <= 24 && Or(s + Zeros(n + 8), Placed(b, n)) == s + b + Zeros(n)
  {}

  lemma Shifted(key: seq<Byte>, i: nat, j: nat)
    requires i + 5 <= |key| && 0 < j < 8
    ensures Or(Shl(Window(Bits(key), 8 * i), j), Shr(key[i + 4], 8 - j)) == Window(Bits(key), 8 * i + j)
  {
    var w := Or(Shl(Window(Bits(key), 8 * i), j), Shr(key[i + 4], 8 - j));
    forall b | 0 <= b < 32 ensures w[b] == Window(Bits(key), 8 * i + j)[b] {
      if b >= 32 - j {
        assert (8 * i + j + b) / 8 == i + 4 && (8 * i + j + b) % 8 == j + b - 32;
      }
    }
  }

  /** The loops have got through the first `n` bits of `d` without an index error. */
  ghost predicate Hashed(hashValue: Word, d: seq<bool>, k: seq<bool>, n: nat) {
    n <= |d| && hashValue == HashTo(d, WindowsAt(k, 0), n) && forall p :: 0 <= p < n && d[p] ==> p + 32 <= |k|
  }

  /** The body of the loops for bit `j` of byte `i`, which is bit `p` of the data. */
  method OneBit(data: seq<Byte>, key: seq<Byte>, i: nat, j: nat, hashValue: Word, ghost p: nat)
    returns (r: Option<Word>)
    requires i < |data| && j < 8 && p == 8 * i + j && Hashed(hashValue, Bits(data), Bits(key), p)
    ensures r.Some? ==> Hashed(r.value, Bits(data), Bits(key), p + 1)
    ensures r.None? ==> !Covered(Bits(data), Bits(key))
  {
    BitAt(i, j);
    assert Bits(data)[p] == data[i][j];
    if data[i][j] {
      var keyword := Keyword(key, i, j);
      if keyword.None? {
        return None;
      }
      r := Some(Xor(hashValue, keyword.value));
    } else {
      XorZero(hashValue);
      r := Some(hashValue);
    }
    HashedMore(hashValue, r.value, Bits(data), Bits(key), p);
  }

  lemma HashedMore(hashValue: Word, hashValue': Word, d: seq<bool>, k: seq<bool>, p: nat)
    requires Hashed(hashValue, d, k, p) && p < |d| && (d[p] ==> p + 32 <= |k|)
    requires hashValue' == if d[p] then Xor(hashValue, Window(k, p)) else Xor(hashValue, ZERO)
    ensures Hashed(hashValue', d, k, p + 1)
  {}

  /** The inner loop. */
  method OneByte(data: seq<Byte>, key: seq<Byte>, i: nat, hashValue: Word, ghost from: nat) returns (r: Option<Word>)
    requires i < |data| && from == 8 * i && Hashed(hashValue, Bits(data), Bits(key), from)
    ensures r.Some? ==> Hashed(r.value, Bits(data), Bits(key), from + 8)
    ensures r.None? ==> !Covered(Bits(data), Bits(key))
  {
    ghost var p := from;
    r := Some(hashValue);
    for j := 0 to 8
      invariant p == from + j && r.Some? && Hashed(r.value, Bits(data), Bits(key), p)
    {
      r := OneBit(data, key, i, j, r.value, p);
      if r.None? {
        return;
      }
      p := p + 1;
    }
  }

  /** `toeplitz_hash`: the loops compute the hash, and run out of the key exactly if it
      does not reach behind a set bit. */
  method ToeplitzHash(data: seq<Byte>, key: seq<Byte>) returns (r: Option<Word>)
    ensures r.Some? <==> Covered(Bits(data), Bits(key))
    ensures r.Some? ==> r.value == Hash(Bits(data), Bits(key), 0)
  {
    r := Some(ZERO);
    ghost var p := 0;
    for i := 0 to |data|
      invariant p == 8 * i && r.Some? && Hashed(r.value, Bits(data), Bits(key), p)
    {
      r := OneByte(data, key, i, r.value, p);
      if r.None? {
        return;
      }
      p := p + 8;
    }
  }

  lemma XorZero(a: Word)
    ensures Xor(a, ZERO) == a
  {
    forall i | 0 <= i < 32 ensures Xor(a, ZERO)[i] == a[i] { XorAt(a, ZERO, i); }
  }

  // ----- Linearity

  lemma XorSwap(a: Word, b: Word)
    ensures Xor(a, b) == Xor(b, a)
  {
    forall i | 0 <= i < 32 ensures Xor(a, b)[i] == Xor(b, a)[i] {
      XorAt(a, b, i);
      XorAt(b, a, i);
    }
  }

  lemma XorAssoc(a: Word, b: Word, c: Word)
    ensures Xor(Xor(a, b), c) == Xor(a, Xor(b, c))
  {
    forall i | 0 <= i < 32 ensures Xor(Xor(a, b), c)[i] == Xor(a, Xor(b, c))[i] {
      XorAt(a, b, i);
      XorAt(b, c, i);
      XorAt(Xor(a, b), c, i);
      XorAt(a, Xor(b, c), i);
    }
  }

  lemma XorSelf(a: Word)
    ensures Xor(a, a) == ZERO
  {
    forall i | 0 <= i < 32 ensures Xor(a, a)[i] == ZERO[i] { XorAt(a, a, i); }
  }

  lemma XorPairs(a: Word, b: Word, c: Word, d: Word)
    ensures Xor(Xor(a, b), Xor(c, d)) == Xor(Xor(a, c), Xor(b, d))
  {
    forall i | 0 <= i < 32 ensures Xor(Xor(a, b), Xor(c, d))[i] == Xor(Xor(a, c), Xor(b, d))[i] {
      XorAt(a, b, i);
      XorAt(c, d, i);
      XorAt(a, c, i);
      XorAt(b, d, i);
      XorAt(Xor(a, b), Xor(c, d), i);
      XorAt(Xor(a, c), Xor(b, d), i);
    }
  }

  lemma ZeroXor(a: Word)
    ensures Xor(a, ZERO) == a && Xor(ZERO, a) == a
  {
    XorZero(a);
    XorSwap(a, ZERO);
  }

  function XorBits(a: seq<bool>, b: seq<bool>): (r: seq<bool>)
    requires |a| == |b|
    ensures |r| == |a|
  {
    seq(|a|, i requires 0 <= i < |a| => a[i] != b[i])
  }

  /** The hash is linear over exclusive or. */
  lemma Linear(a: seq<bool>, b: seq<bool>, k: seq<bool>, at: nat)
    requires |a| == |b|
    ensures Hash(XorBits(a, b), k, at) == Xor(Hash(a, k, at), Hash(b, k, at))
  {
    LinearTo(a, b, WindowsAt(k, at), |a|);
  }

  lemma {:induction false} LinearTo(a: seq<bool>, b: seq<bool>, w: nat -> Word, n: nat)
    requires n <= |a| == |b|
    ensures HashTo(XorBits(a, b), w, n) == Xor(HashTo(a, w, n), HashTo(b, w, n))
  {
    if n > 0 {
      var x, y := Term(a[n - 1], w(n - 1)), Term(b[n - 1], w(n - 1));
      LinearTo(a, b, w, n - 1);
      TermLinear(a[n - 1], b[n - 1], w(n - 1));
      XorPairs(HashTo(a, w, n - 1), HashTo(b, w, n - 1), x, y);
    } else {
      XorZero(ZERO);
    }
  }

  lemma TermLinear(a: bool, b: bool, x: Word)
    ensures Term(a != b, x) == Xor(Term(a, x), Term(b, x))
  {
    XorSelf(x);
    ZeroXor(x);
    ZeroXor(ZERO);
  }

  // ----- Data in parts

  lemma {:induction false} HashFront(a: seq<bool>, b: seq<bool>, w: nat -> Word, n: nat)
    requires n <= |a|
    ensures HashTo(a + b, w, n) == HashTo(a, w, n)
  {
    if n > 0 {
      HashFront(a, b, w, n - 1);
    }
  }

  lemma {:induction false} HashBack(a: seq<bool>, b: seq<bool>, w: nat -> Word, v: nat -> Word, n: nat)
    requires n <= |b| && forall p: nat :: v(p) == w(|a| + p)
    ensures HashTo(a + b, w, |a| + n) == Xor(HashTo(a, w, |a|), HashTo(b, v, n))
  {
    if n == 0 {
      HashFront(a, b, w, |a|);
      XorZero(HashTo(a, w, |a|));
    } else {
      HashBack(a, b, w, v, n - 1);
      assert v(n - 1) == w(|a| + n - 1);
      XorAssoc(HashTo(a, w, |a|), HashTo(b, v, n - 1), Term(b[n - 1], v(n - 1)));
    }
  }

  lemma HashConcat(a: seq<bool>, b: seq<bool>, k: seq<bool>, at: nat)
    ensures Hash(a + b, k, at) == Xor(Hash(a, k, at), Hash(b, k, at + |a|))
  {
    HashBack(a, b, WindowsAt(k, at), WindowsAt(k, at + |a|), |b|);
  }

  lemma {:induction false} HashSame(d: seq<bool>, w: nat -> Word, v: nat -> Word, n: nat)
    requires n <= |d| && forall p: nat :: p < n ==> w(p) == v(p)
    ensures HashTo(d, w, n) == HashTo(d, v, n)
  {
    if n > 0 {
      HashSame(d, w, v, n - 1);
    }
  }

  // ----- Symmetry

  ghost predicate SameAt(k: seq<bool>, m: nat, at: nat, p: nat) { Window(k, at + p) == Window(k, at + m + p) }

  /** The key windows at the first `n` positions from `at` on, and `m` bits later. */
  ghost predicate SameWindows(k: seq<bool>, m: nat, at: nat, n: nat) { forall p: nat :: p < n ==> SameAt(k, m, at, p) }

  lemma HashLater(d: seq<bool>, k: seq<bool>, m: nat, at: nat)
    requires SameWindows(k, m, at, |d|)
    ensures Hash(d, k, at + m) == Hash(d, k, at)
  {
    var w, v := WindowsAt(k, at + m), WindowsAt(k, at);
    forall p: nat | p < |d| ensures w(p) == v(p) {
      assert SameAt(k, m, at, p);
    }
    HashSame(d, w, v, |d|);
  }

  /** Behind a field of `|a|` bits, data hashes as at the front of it. */
  lemma HashSplit(a: seq<bool>, b: seq<bool>, k: seq<bool>, at: nat)
    requires SameWindows(k, |a|, at, |b|)
    ensures Hash(a + b, k, at) == Xor(Hash(a, k, at), Hash(b, k, at))
  {
    HashConcat(a, b, k, at);
    HashLater(b, k, |a|, at);
  }

  lemma SwapSame(a: seq<bool>, b: seq<bool>, k: seq<bool>, at: nat)
    requires SameWindows(k, |a|, at, |b|) && SameWindows(k, |b|, at, |a|)
    ensures Hash(a + b, k, at) == Hash(b + a, k, at)
  {
    HashSplit(a, b, k, at);
    HashSplit(b, a, k, at);
    XorSwap(Hash(a, k, at), Hash(b, k, at));
  }

  ghost predicate RepeatsAt(k: seq<bool>, q: nat, i: nat) { i + q < |k| ==> k[i] == k[i + q] }

  /** The key repeats itself after `q` bits. */
  ghost predicate Repeats(k: seq<bool>, q: nat) { forall i: nat :: RepeatsAt(k, q, i) }

  predicate Multiple(n: nat, q: nat) { n == 0 || (0 < q <= n && Multiple(n - q, q)) }

  /** A key that repeats itself after `q` bits does so after any number of such periods. */
  lemma {:induction false} RepeatsMultiple(k: seq<bool>, q: nat, span: nat)
    requires Repeats(k, q) && Multiple(span, q)
    ensures Repeats(k, span)
    decreases span
  {
    if span > 0 {
      RepeatsMultiple(k, q, span - q);
      forall i: nat ensures RepeatsAt(k, span, i) {
        assert RepeatsAt(k, q, i) && RepeatsAt(k, span - q, i + q);
      }
    }
  }

  lemma WindowRepeats(k: seq<bool>, q: nat, p: nat, later: nat)
    requires Repeats(k, q) && later == p + q && later + 32 <= |k|
    ensures Window(k, later) == Window(k, p)
  {
    forall b | 0 <= b < 32 ensures Window(k, later)[b] == Window(k, p)[b] {
      assert RepeatsAt(k, q, p + b);
    }
  }

  /** So do its windows. */
  lemma WindowsRepeat(k: seq<bool>, q: nat, span: nat, at: nat, n: nat)
    requires Repeats(k, q) && Multiple(span, q) && at + span + n + 31 <= |k|
    ensures SameWindows(k, span, at, n)
  {
    RepeatsMultiple(k, q, span);
    forall p: nat | p < n ensures SameAt(k, span, at, p) {
      WindowRepeats(k, span, at + p, at + span + p);
    }
  }

  /** Two fields made of whole periods of the key can be swapped. */
  lemma HashSwapped(a: seq<bool>, b: seq<bool>, k: seq<bool>, q: nat, at: nat)
    requires Repeats(k, q) && Multiple(|a|, q) && Multiple(|b|, q) && at + |a| + |b| + 31 <= |k|
    ensures Hash(a + b, k, at) == Hash(b + a, k, at)
  {
    WindowsRepeat(k, q, |a|, at, |b|);
    WindowsRepeat(k, q, |b|, at, |a|);
    SwapSame(a, b, k, at);
  }

  ghost predicate Swappable(k: seq<bool>, m: nat, at: nat) {
    forall a: seq<bool>, b: seq<bool> :: |a| == |b| == m ==> Hash(a + b, k, at) == Hash(b + a, k, at)
  }

  /** Two neighbouring fields of `m` bits can be swapped, whatever they hold, exactly if
      the key windows at their bits are the same. */
  lemma SwapIff(k: seq<bool>, m: nat, at: nat)
    ensures Swappable(k, m, at) <==> SameWindows(k, m, at, m)
  {
    if SameWindows(k, m, at, m) {
      forall a: seq<bool>, b: seq<bool> | |a| == |b| == m ensures Hash(a + b, k, at) == Hash(b + a, k, at) {
        SwapSame(a, b, k, at);
      }
    }
    if Swappable(k, m, at) {
      forall p: nat | p < m ensures SameAt(k, m, at, p) {
        var a, b := OneAt(m, p), Zeros(m);
        assert Hash(a + b, k, at) == Hash(b + a, k, at);
        OneSet(k, m, at, p);
      }
    }
  }

  function OneAt(m: nat, p: nat): (s: seq<bool>)
    requires p < m
    ensures |s| == m
  {
    Zeros(m)[p := true]
  }

  lemma HashOneAt(k: seq<bool>, m: nat, at: nat, p: nat)
    requires p < m
    ensures Hash(OneAt(m, p), k, at) == Window(k, at + p)
  {
    HashOne(m, p, WindowsAt(k, at), m);
  }

  lemma HashNone(k: seq<bool>, m: nat, at: nat)
    ensures Hash(Zeros(m), k, at) == ZERO
  {
    HashZeros(m, WindowsAt(k, at), m);
  }

  lemma BesideZeros(a: seq<bool>, k: seq<bool>, m: nat, at: nat)
    ensures Hash(a + Zeros(m), k, at) == Hash(a, k, at)
    ensures Hash(Zeros(m) + a, k, at) == Hash(a, k, at + m)
  {
    HashConcat(a, Zeros(m), k, at);
    HashConcat(Zeros(m), a, k, at);
    HashNone(k, m, at + |a|);
    HashNone(k, m, at);
    ZeroXor(Hash(a, k, at));
    ZeroXor(Hash(a, k, at + m));
  }

  /** One set bit in either of two fields. */
  lemma OneSet(k: seq<bool>, m: nat, at: nat, p: nat)
    requires p < m
    ensures Hash(OneAt(m, p) + Zeros(m), k, at) == Window(k, at + p)
    ensures Hash(Zeros(m) + OneAt(m, p), k, at) == Window(k, at + m + p)
  {
    BesideZeros(OneAt(m, p), k, m, at);
    HashOneAt(k, m, at, p);
    HashOneAt(k, m, at + m, p);
  }

  lemma {:induction false} HashZeros(m: nat, w: nat -> Word, n: nat)
    requires n <= m
    ensures HashTo(Zeros(m), w, n) == ZERO
  {
    if n > 0 {
      HashZeros(m, w, n - 1);
      XorZero(ZERO);
    }
  }

  lemma {:induction false} HashOne(m: nat, p: nat, w: nat -> Word, n: nat)
    requires p < m && n <= m
    ensures HashTo(OneAt(m, p), w, n) == if p < n then w(p) else ZERO
  {
    if n > 0 {
      HashOne(m, p, w, n - 1);
      ZeroXor(if p < n then w(p) else ZERO);
    }
  }
}
