/**
  Packets as the reassembly code sees them: an mbuf chain with the header
  fields the code reads and writes, and sums of multisets used to state that
  nothing is lost or duplicated.
 */
module Packets {
  import opened Basics

  const U16 := 0x1_0000
  const U32 := 0x1_0000_0000
  const MAX_IP_PKT_LENGTH := 0xffff

  type uint16 = x: int | 0 <= x < U16
  type uint32 = x: int | 0 <= x < U32

  // The bit-field widths of the mbuf length fields and of the fragment offset.
  type len7 = x: int | 0 <= x < 0x80
  type len8 = x: int | 0 <= x < 0x100
  type len9 = x: int | 0 <= x < 0x200
  type len13 = x: int | 0 <= x < 0x2000

  datatype Lengths = Lengths(outerL2: len7, outerL3: len9, l2: len7, l3: len9, l4: len8)

  /** The same headers up to the transport header, whose length may differ. */
  predicate SameUpToL4(a: Lengths, b: Lengths) { a == b.(l4 := a.l4) }

  /** Header fields that a flow key is made of. `tunnel` is the TEID of a GTP
      packet, or the flags and VNI of a VXLAN packet as one number. */
  datatype Addresses = Addresses(
    outerEthSrc: nat, outerEthDst: nat, outerIpSrc: nat, outerIpDst: nat,
    outerSrcPort: nat, outerDstPort: nat, tunnel: nat,
    ethSrc: nat, ethDst: nat, ipSrc: nat, ipDst: nat,
    srcPort: nat, dstPort: nat, recvAck: nat)

  /** The remaining header fields. `fragUnits` is the inner fragment offset in
      units of eight bytes; `options` are the TCP option bytes. */
  datatype Header = Header(
    addr: Addresses,
    outerTotalLen: uint16, outerUdpLen: uint16, outerDf: bool, outerIpId: uint16,
    totalLen: uint16, df: bool, mf: bool, fragUnits: len13, ipId: uint16,
    tcpFlags: byte, sentSeq: uint32, options: seq<byte>)

  /** An mbuf chain: its bytes (`pkt_len` is `|data|`) and the addresses of the
      chained buffers (`nb_segs` is `|segs|`). */
  datatype Mbuf = Mbuf(packetType: uint32, lens: Lengths, hdr: Header, data: seq<byte>, segs: seq<nat>)

  /** `rte_pktmbuf_adj`: drop `n` bytes at the front, or nothing if there are fewer. */
  function Adj(data: seq<byte>, n: nat): seq<byte> {
    if n > |data| then data else data[n..]
  }

  /** What both merge functions do to the mbufs: `tail` loses as many bytes as
      `head` has header, and is chained behind `head`. */
  function Chain(head: Mbuf, tail: Mbuf, hdrLen: nat): Mbuf {
    head.(data := head.data + Adj(tail.data, hdrLen), segs := head.segs + tail.segs)
  }

  /** The output array `s` after `e` was written to it from index `at` on. */
  function Written(s: seq<Mbuf>, at: nat, e: seq<Mbuf>): seq<Mbuf>
    requires at + |e| <= |s|
  {
    s[..at] + e + s[at + |e|..]
  }

  /** The output array after the first `n` elements of `e` were stored one by one. */
  ghost function Fill(s: seq<Mbuf>, at: nat, e: seq<Mbuf>, n: nat): (r: seq<Mbuf>)
    requires n <= |e| && at + n <= |s|
    ensures |r| == |s|
  {
    if n == 0 then s else Fill(s, at, e, n - 1)[at + n - 1 := e[n - 1]]
  }

  lemma FillNext(s: seq<Mbuf>, at: nat, e: seq<Mbuf>, n: nat)
    requires n < |e| && at + n < |s|
    ensures Fill(s, at, e, n)[at + n := e[n]] == Fill(s, at, e, n + 1)
  {}

  lemma {:induction false} FillWrites(s: seq<Mbuf>, at: nat, e: seq<Mbuf>, n: nat)
    requires n <= |e| && at + n <= |s|
    ensures Fill(s, at, e, n) == Written(s, at, e[..n])
    ensures n == |e| ==> Fill(s, at, e, n) == Written(s, at, e)
  {
    if n > 0 {
      FillWrites(s, at, e, n - 1);
      assert e[..n] == e[..n - 1] + [e[n - 1]];
    }
    assert n == |e| ==> e[..n] == e;
  }

  lemma UpdateTwice<T>(s: seq<T>, i: nat, a: T, b: T)
    requires i < |s|
    ensures s[i := a][i := b] == s[i := b]
  {}

  lemma WrittenTwice(s: seq<Mbuf>, at: nat, e: seq<Mbuf>, e': seq<Mbuf>)
    requires at + |e| + |e'| <= |s|
    ensures Written(Written(s, at, e), at + |e|, e') == Written(s, at, e + e')
  {}

  /** The bytes behind the first `h` header bytes. */
  function Payload(m: Mbuf, h: nat): seq<byte> {
    if h <= |m.data| then m.data[h..] else []
  }

  /** Chaining concatenates payloads exactly when both headers have one length. */
  lemma ChainPayload(head: Mbuf, tail: Mbuf, h: nat, th: nat)
    requires 0 < h <= |head.data| && 0 < th <= |tail.data|
    ensures Payload(Chain(head, tail, h), h) == Payload(head, h) + Payload(tail, th) <==> h == th
  {
    var c := Chain(head, tail, h);
    assert Payload(c, h) == Payload(head, h) + Adj(tail.data, h);
    if h == th {
      assert Adj(tail.data, h) == Payload(tail, th);
    } else {
      assert |Adj(tail.data, h)| != |Payload(tail, th)|;
    }
  }

  /** The buffers of a list of packets. */
  ghost function SumBuffers(ms: seq<Mbuf>): multiset<nat> { Sum(ms, (m: Mbuf) => multiset(m.segs)) }

  /** The sum of `f` over a list of packets. */
  ghost function Sum<U>(ms: seq<Mbuf>, f: Mbuf -> multiset<U>): multiset<U> {
    if ms == [] then multiset{} else f(ms[0]) + Sum(ms[1..], f)
  }

  lemma {:induction false} SumConcat<U>(a: seq<Mbuf>, b: seq<Mbuf>, f: Mbuf -> multiset<U>)
    ensures Sum(a + b, f) == Sum(a, f) + Sum(b, f)
  {
    if a == [] {
      assert a + b == b;
    } else {
      assert (a + b)[1..] == a[1..] + b;
      SumConcat(a[1..], b, f);
    }
  }

  lemma SumMore<U>(ms: seq<Mbuf>, p: Mbuf, f: Mbuf -> multiset<U>)
    ensures Sum(ms + [p], f) == Sum(ms, f) + f(p)
  {
    assert [p][1..] == [] && Sum([p], f) == f(p) + Sum([], f);
    SumConcat(ms, [p], f);
  }

  lemma {:induction false} SumPermuted<U>(a: seq<Mbuf>, b: seq<Mbuf>, f: Mbuf -> multiset<U>)
    requires multiset(a) == multiset(b)
    ensures Sum(a, f) == Sum(b, f)
    decreases |a|
  {
    if a == [] {
      assert |multiset(b)| == 0;
    } else {
      assert a[0] in multiset(b);
      var i :| 0 <= i < |b| && b[i] == a[0];
      SameRest(a, b, i);
      SumPermuted(a[1..], b[..i] + b[i + 1..], f);
      SumWithout(b, i, f);
    }
  }

  lemma SameRest<T>(a: seq<T>, b: seq<T>, i: nat)
    requires multiset(a) == multiset(b) && a != [] && i < |b| && b[i] == a[0]
    ensures multiset(a[1..]) == multiset(b[..i] + b[i + 1..])
  {
    RemoveOne(a, 0);
    RemoveOne(b, i);
    assert a[..0] + a[1..] == a[1..];
  }

  lemma RemoveOne<T>(s: seq<T>, i: nat)
    requires i < |s|
    ensures multiset(s[..i] + s[i + 1..]) == multiset(s) - multiset{s[i]}
  {
    assert s == s[..i] + [s[i]] + s[i + 1..];
  }

  lemma {:induction false} SumWithout<U>(s: seq<Mbuf>, i: nat, f: Mbuf -> multiset<U>)
    requires i < |s|
    ensures Sum(s, f) == f(s[i]) + Sum(s[..i] + s[i + 1..], f)
  {
    var rest := s[..i] + s[i + 1..];
    if i == 0 {
      assert rest == s[1..];
    } else {
      var deeper := s[1..][..i - 1] + s[1..][i..];
      SumWithout(s[1..], i - 1, f);
      assert rest[0] == s[0] && rest[1..] == deeper;
      Swapped(f(s[0]), f(s[i]), Sum(deeper, f));
    }
  }

  lemma Swapped<U>(a: multiset<U>, b: multiset<U>, c: multiset<U>)
    ensures a + (b + c) == b + (a + c)
  {}

  lemma SumBuffersMore(ms: seq<Mbuf>, p: Mbuf)
    ensures SumBuffers(ms + [p]) == SumBuffers(ms) + multiset(p.segs)
  {
    SumMore(ms, p, (m: Mbuf) => multiset(m.segs));
  }

  lemma SumBuffersLast(ms: seq<Mbuf>)
    requires ms != []
    ensures var n := |ms| - 1; SumBuffers(ms) == SumBuffers(ms[..n]) + multiset(ms[n].segs)
  {
    var n := |ms| - 1;
    SumBuffersMore(ms[..n], ms[n]);
    assert ms == ms[..n] + [ms[n]];
  }

  lemma SumBuffersConcat(a: seq<Mbuf>, b: seq<Mbuf>)
    ensures SumBuffers(a + b) == SumBuffers(a) + SumBuffers(b)
  {
    SumConcat(a, b, (m: Mbuf) => multiset(m.segs));
  }

  /** A payload byte of flow `owner` at position `at` of its datagram or stream. */
  datatype Unit<K> = Unit(owner: K, at: uint32, value: byte)

  /** Sequence arithmetic modulo 2^32 (section 3.4 of RFC 9293). Positions inside
      an IP datagram are far below 2^32, so for them nothing wraps. */
  function Wrap(x: int): uint32 { x % U32 }

  lemma WrapTwice(x: int)
    ensures Wrap(Wrap(x)) == Wrap(x)
  {}

  lemma WrapAdd(x: int, y: int, d: int)
    requires Wrap(x) == Wrap(y)
    ensures Wrap(x + d) == Wrap(y + d)
  {}

  /** The bytes of `s`, the first of which is at position `at`. */
  ghost function Units<K>(k: K, at: int, s: seq<byte>): multiset<Unit<K>>
    decreases |s|
  {
    if s == [] then multiset{}
    else multiset{Unit(k, Wrap(at), s[0])} + Units(k, at + 1, s[1..])
  }

  lemma {:induction false} UnitsConcat<K>(k: K, at: int, a: seq<byte>, b: seq<byte>)
    ensures Units(k, at, a + b) == Units(k, at, a) + Units(k, at + |a|, b)
    decreases |a|
  {
    if a == [] {
      assert a + b == b;
    } else {
      var first := multiset{Unit(k, Wrap(at), a[0])};
      calc {
        Units(k, at, a + b);
        { assert (a + b)[1..] == a[1..] + b; }
        first + Units(k, at + 1, a[1..] + b);
        { UnitsConcat(k, at + 1, a[1..], b); }
        first + (Units(k, at + 1, a[1..]) + Units(k, at + |a|, b));
        (first + Units(k, at + 1, a[1..])) + Units(k, at + |a|, b);
        Units(k, at, a) + Units(k, at + |a|, b);
      }
    }
  }

  lemma {:induction false} UnitsWrap<K>(k: K, at: int, at': int, s: seq<byte>)
    requires Wrap(at) == Wrap(at')
    ensures Units(k, at, s) == Units(k, at', s)
    decreases |s|
  {
    if s != [] {
      WrapAdd(at, at', 1);
      UnitsWrap(k, at + 1, at' + 1, s[1..]);
    }
  }

  lemma Cancel<U>(x: multiset<U>, a: multiset<U>, b: multiset<U>)
    ensures x + a == x + b <==> a == b
  {
    assert (x + a) - x == a && (x + b) - x == b;
  }

  lemma {:induction false} UnitAt<K>(k: K, at: int, s: seq<byte>, i: nat)
    requires i < |s|
    ensures Unit(k, Wrap(at + i), s[i]) in Units(k, at, s)
    decreases |s|
  {
    if i > 0 {
      UnitAt(k, at + 1, s[1..], i - 1);
    }
  }

  lemma {:induction false} UnitFrom<K>(k: K, at: int, s: seq<byte>, u: Unit<K>) returns (i: nat)
    requires u in Units(k, at, s)
    ensures i < |s| && u == Unit(k, Wrap(at + i), s[i])
    decreases |s|
  {
    var first := Unit(k, Wrap(at), s[0]);
    assert Units(k, at, s) == multiset{first} + Units(k, at + 1, s[1..]);
    if u == first {
      i := 0;
    } else {
      var j := UnitFrom(k, at + 1, s[1..], u);
      i := j + 1;
    }
  }

  /** Labelled bytes determine the bytes. */
  lemma UnitsDiffer<K>(k: K, at: int, a: seq<byte>, b: seq<byte>)
    requires |a| == |b| <= U16 && a != b
    ensures Units(k, at, a) != Units(k, at, b)
  {
    var j :| 0 <= j < |a| && a[j] != b[j];
    UnitAt(k, at, a, j);
    if Units(k, at, a) == Units(k, at, b) {
      var i := UnitFrom(k, at, b, Unit(k, Wrap(at + j), a[j]));
      WrapApart(at, i, j);
    }
  }

  lemma WrapApart(at: int, i: nat, j: nat)
    requires i < U16 && j < U16 && Wrap(at + i) == Wrap(at + j)
    ensures i == j
  {}
}
