/**
  The functions of `rte_gro.h`: reassemble a burst, reassemble into a context, flush a
  context, count its packets. The flags `on` are the enabled types. The burst function
  and the packet loop come in two forms: in place, and with a second array that is
  copied back as before GTP was added.
 */
module GroDriver {
  import opened Packets
  import opened FlowTable
  import opened ItemTable
  import opened Gro
  import opened GroTables
  import opened GroLaws
  import opened GroBursts
  import opened GroTimeouts

  /** The size of the tables of one burst. */
  function Entries(nbPkts: nat, maxFlowNum: nat, maxItemPerFlow: nat): (n: nat)
    ensures n <= nbPkts && n <= MAX_BURST_ITEM_NUM <= TBL_MAX_ITEM_NUM
  {
    var n := if nbPkts < maxFlowNum * maxItemPerFlow then nbPkts else maxFlowNum * maxItemPerFlow;
    if n < MAX_BURST_ITEM_NUM then n else MAX_BURST_ITEM_NUM
  }

  /** The packets put out so far are in front of `base`. */
  ghost predicate Holds(out: array<Mbuf>, base: seq<Mbuf>, d: Drained)
    reads out
  {
    |d.out| <= |base| == out.Length && out[..] == Written(base, 0, d.out)
  }

  /** Flush one table behind the packets put out so far. */
  method FlushBehind(tbls: Tables, out: array<Mbuf>, r: Route, on: Types, ts: nat, i: nat, max: nat, ghost d: Drained,
                     ghost base: seq<Mbuf>)
    returns (k: nat)
    requires tbls.Valid() && tbls.State() == d.views && i == |d.out| <= max <= out.Length && Enabled(on, r)
    requires max > i || TotalOf(d.views, r) == 0
    requires Holds(out, base, d)
    modifies tbls.Repr(), out
    ensures var d' := FlushMore(d, r, on, ts, max);
      tbls.Valid() && tbls.State() == d'.views && i + k == |d'.out| <= max && Holds(out, base, d')
  {
    k := tbls.TimeoutFlush(r, ts, out, i, max - i);
    WroteBehind(base, d.out, FlushOne(d.views, r, ts, max - i).out, out[..]);
  }

  lemma WroteBehind(base: seq<Mbuf>, e: seq<Mbuf>, e': seq<Mbuf>, s: seq<Mbuf>)
    requires |e| <= |base| && Wrote(Written(base, 0, e), |e|, e', s)
    ensures |e + e'| <= |base| && s == Written(base, 0, e + e')
  {
    WrittenTwice(base, 0, e, e');
  }

  /** Flush one of the tables of a burst. */
  method FlushOnto(tbls: Tables, pkts: array<Mbuf>, r: Route, on: Types, i: nat, nbPkts: nat, ghost d: Drained,
                   ghost base: seq<Mbuf>)
    returns (i': nat)
    requires tbls.Valid() && tbls.State() == d.views && i == |d.out| && nbPkts <= pkts.Length && Fits(d, nbPkts)
    requires Holds(pkts, base, d)
    modifies tbls.Repr(), pkts
    ensures var d' := FlushMore(d, r, on, 0, nbPkts);
      tbls.Valid() && tbls.State() == d'.views && i' == |d'.out| && Fits(d', nbPkts) && Holds(pkts, base, d')
  {
    MoreOk(d, r, on, 0, nbPkts);
    i' := i;
    if Enabled(on, r) {
      OneOfAll(d.views, r);
      var k := FlushBehind(tbls, pkts, r, on, 0, i, nbPkts, d, base);
      i' := i + k;
    }
  }

  lemma OneOfAll(vs: Views, r: Route)
    ensures TotalOf(vs, r) <= Count(vs)
  {}

  /** Flush all tables of a burst. */
  method FlushTables(tbls: Tables, pkts: array<Mbuf>, on: Types, unprocessNum: nat, nbPkts: nat, ghost d0: Drained,
                     ghost base: seq<Mbuf>)
    requires tbls.Valid() && tbls.State() == d0.views && unprocessNum == |d0.out| && nbPkts <= pkts.Length
    requires Fits(d0, nbPkts)
    requires Holds(pkts, base, d0)
    modifies tbls.Repr(), pkts
    ensures var d := FlushBurst(d0.views, d0.out, on, nbPkts); |d.out| <= nbPkts && Holds(pkts, base, d)
  {
    ghost var d := d0;
    var i := FlushOnto(tbls, pkts, VxlanTcp, on, unprocessNum, nbPkts, d, base);
    d := FlushMore(d, VxlanTcp, on, 0, nbPkts);
    i := FlushOnto(tbls, pkts, VxlanUdp, on, i, nbPkts, d, base);
    d := FlushMore(d, VxlanUdp, on, 0, nbPkts);
    i := FlushOnto(tbls, pkts, GtpTcp, on, i, nbPkts, d, base);
    d := FlushMore(d, GtpTcp, on, 0, nbPkts);
    i := FlushOnto(tbls, pkts, GtpUdp, on, i, nbPkts, d, base);
    d := FlushMore(d, GtpUdp, on, 0, nbPkts);
    i := FlushOnto(tbls, pkts, Tcp4, on, i, nbPkts, d, base);
  }

  /** The array `s` and the result after a burst of the packets `ps`, which had `tail`
      behind them. What this means is stated by `BurstAccounting`. */
  ghost predicate Burst(s: seq<Mbuf>, ret: nat, ps: seq<Mbuf>, tail: seq<Mbuf>, classify: Classifier, on: Types,
                        entries: nat) {
    var r := BurstLoop(ps, classify, on, entries);
    var d := FlushBurst(r.views, r.back, on, |ps|);
    ret == |ps| - r.merged && |d.out| <= |ps| && s == Written(r.seen + tail, 0, d.out)
  }

  /** `rte_gro_reassemble_burst`. */
  method ReassembleBurst(pkts: array<Mbuf>, nbPkts: nat, classify: Classifier, on: Types, maxFlowNum: uint16,
                         maxItemPerFlow: uint16)
    returns (nbAfterGro: nat)
    requires nbPkts <= pkts.Length && nbPkts < U16 && maxFlowNum * maxItemPerFlow < 0x8000_0000
    modifies pkts
    ensures
      if on == Types(false, false, false, false, false) then nbAfterGro == nbPkts && pkts[..] == old(pkts[..])
      else Burst(pkts[..], nbAfterGro, old(pkts[..nbPkts]), old(pkts[nbPkts..]), classify, on,
                 Entries(nbPkts, maxFlowNum, maxItemPerFlow))
  {
    if NoTypes(on) {
      return nbPkts;
    }
    var tbls := NewTables(Entries(nbPkts, maxFlowNum, maxItemPerFlow));
    nbAfterGro := BurstWith(tbls, pkts, nbPkts, classify, on, Entries(nbPkts, maxFlowNum, maxItemPerFlow));
  }

  method BurstWith(tbls: Tables, pkts: array<Mbuf>, nbPkts: nat, classify: Classifier, on: Types, ghost entries: nat)
    returns (nbAfterGro: nat)
    requires tbls.Valid() && tbls.State() == NoFlows(entries) && nbPkts <= pkts.Length
    modifies tbls.Repr(), pkts
    ensures Burst(pkts[..], nbAfterGro, old(pkts[..nbPkts]), old(pkts[nbPkts..]), classify, on, entries)
  {
    ghost var ps, tail := pkts[..nbPkts], pkts[nbPkts..];
    ghost var r := BurstLoop(ps, classify, on, entries);
    BurstReady(ps, classify, on, entries);
    var unprocessNum;
    unprocessNum, nbAfterGro := ProcessInPlace(tbls, pkts, nbPkts, classify, on, 0);
    BurstFlush(tbls, pkts, nbPkts, on, unprocessNum, nbAfterGro, r, tail);
  }

  /** The second half of a burst: if anything happened, flush everything. */
  method BurstFlush(tbls: Tables, pkts: array<Mbuf>, nbPkts: nat, on: Types, unprocessNum: nat, nbAfterGro: nat,
                    ghost r: Progress, ghost tail: seq<Mbuf>)
    requires tbls.Valid() && tbls.State() == r.views && Ready(r.views, on)
    requires nbPkts == |r.seen| && unprocessNum == |r.back| && nbAfterGro == nbPkts - r.merged
    requires Fits(Drained(r.views, r.back), nbPkts) && Holds(pkts, r.seen + tail, Drained(r.views, r.back))
    modifies tbls.Repr(), pkts
    ensures var d := FlushBurst(r.views, r.back, on, nbPkts);
      |d.out| <= nbPkts && Holds(pkts, r.seen + tail, d)
  {
    if nbAfterGro < nbPkts || unprocessNum < nbPkts {
      FlushTables(tbls, pkts, on, unprocessNum, nbPkts, Drained(r.views, r.back), r.seen + tail);
    } else {
      NothingToFlush(r, on, nbPkts);
    }
  }

  lemma NothingToFlush(r: Progress, on: Types, n: nat)
    requires Fits(Drained(r.views, r.back), n) && Ready(r.views, on) && |r.back| == n
    ensures FlushBurst(r.views, r.back, on, n).out == r.back
  {
    FlushCounts(r.views, r.back, on, n);
  }

  /** The burst function with a second array meets the same contract: the in-place form
      does to its array exactly what this one does. */
  method ReassembleBurstCopying(pkts: array<Mbuf>, nbPkts: nat, classify: Classifier, on: Types, maxFlowNum: uint16,
                                maxItemPerFlow: uint16)
    returns (nbAfterGro: nat)
    requires nbPkts <= pkts.Length && nbPkts < U16 && maxFlowNum * maxItemPerFlow < 0x8000_0000
    modifies pkts
    ensures
      if on == Types(false, false, false, false, false) then nbAfterGro == nbPkts && pkts[..] == old(pkts[..])
      else Burst(pkts[..], nbAfterGro, old(pkts[..nbPkts]), old(pkts[nbPkts..]), classify, on,
                 Entries(nbPkts, maxFlowNum, maxItemPerFlow))
  {
    if NoTypes(on) {
      return nbPkts;
    }
    var tbls := NewTables(Entries(nbPkts, maxFlowNum, maxItemPerFlow));
    nbAfterGro := BurstCopyingWith(tbls, pkts, nbPkts, classify, on, Entries(nbPkts, maxFlowNum, maxItemPerFlow));
  }

  method BurstCopyingWith(tbls: Tables, pkts: array<Mbuf>, nbPkts: nat, classify: Classifier, on: Types,
                          ghost entries: nat)
    returns (nbAfterGro: nat)
    requires tbls.Valid() && tbls.State() == NoFlows(entries) && nbPkts <= pkts.Length
    modifies tbls.Repr(), pkts
    ensures Burst(pkts[..], nbAfterGro, old(pkts[..nbPkts]), old(pkts[nbPkts..]), classify, on, entries)
  {
    ghost var ps, tail := pkts[..nbPkts], pkts[nbPkts..];
    ghost var r := BurstLoop(ps, classify, on, entries);
    BurstReady(ps, classify, on, entries);
    var unprocessNum, unprocessPkts;
    unprocessNum, nbAfterGro, unprocessPkts := ProcessCopying(tbls, pkts, nbPkts, classify, on, 0);
    BurstCopyFlush(tbls, pkts, unprocessPkts, nbPkts, on, unprocessNum, nbAfterGro, r, tail);
  }

  method BurstCopyFlush(tbls: Tables, pkts: array<Mbuf>, unprocessPkts: array<Mbuf>, nbPkts: nat, on: Types,
                        unprocessNum: nat, nbAfterGro: nat, ghost r: Progress, ghost tail: seq<Mbuf>)
    requires tbls.Valid() && tbls.State() == r.views && Ready(r.views, on) && pkts != unprocessPkts
    requires nbPkts == |r.seen| && unprocessNum == |r.back| && nbAfterGro == nbPkts - r.merged
    requires |r.back| == |r.seen| ==> r.back == r.seen
    requires Fits(Drained(r.views, r.back), nbPkts) && pkts[..] == r.seen + tail
    requires unprocessNum <= unprocessPkts.Length && unprocessPkts[..unprocessNum] == r.back
    modifies tbls.Repr(), pkts
    ensures var d := FlushBurst(r.views, r.back, on, nbPkts);
      |d.out| <= nbPkts && Holds(pkts, r.seen + tail, d)
  {
    if nbAfterGro < nbPkts || unprocessNum < nbPkts {
      CopyBack(tbls, pkts, unprocessPkts, unprocessNum);
      FlushTables(tbls, pkts, on, unprocessNum, nbPkts, Drained(r.views, r.back), r.seen + tail);
    } else {
      NothingToFlush(r, on, nbPkts);
    }
  }

  // ----- A context

  /** `rte_gro_reassemble` on a context whose tables are `tbls`. */
  method Reassemble(tbls: Tables, pkts: array<Mbuf>, nbPkts: nat, classify: Classifier, on: Types, now: nat)
    returns (unprocessNum: nat)
    requires tbls.Valid() && nbPkts <= pkts.Length
    modifies tbls.Repr(), pkts
    ensures tbls.Valid()
    ensures
      if on == Types(false, false, false, false, false) then
        unprocessNum == nbPkts && pkts[..] == old(pkts[..]) && tbls.State() == old(tbls.State())
      else var r := ProcessAll(old(tbls.State()), old(pkts[..nbPkts]), classify, on, now);
        tbls.State() == r.views && unprocessNum == |r.back| && pkts[..] == HandedBack(r, old(pkts[nbPkts..]))
  {
    if NoTypes(on) {
      return nbPkts;
    }
    var nbAfterGro;
    unprocessNum, nbAfterGro := ProcessInPlace(tbls, pkts, nbPkts, classify, on, now);
  }

  /** `rte_gro_reassemble` with a second array, with the same contract. */
  method ReassembleCopying(tbls: Tables, pkts: array<Mbuf>, nbPkts: nat, classify: Classifier, on: Types, now: nat)
    returns (unprocessNum: nat)
    requires tbls.Valid() && nbPkts <= pkts.Length
    modifies tbls.Repr(), pkts
    ensures tbls.Valid()
    ensures
      if on == Types(false, false, false, false, false) then
        unprocessNum == nbPkts && pkts[..] == old(pkts[..]) && tbls.State() == old(tbls.State())
      else var r := ProcessAll(old(tbls.State()), old(pkts[..nbPkts]), classify, on, now);
        tbls.State() == r.views && unprocessNum == |r.back| && pkts[..] == HandedBack(r, old(pkts[nbPkts..]))
  {
    if NoTypes(on) {
      return nbPkts;
    }
    var nbAfterGro, unprocessPkts;
    unprocessNum, nbAfterGro, unprocessPkts := ProcessCopying(tbls, pkts, nbPkts, classify, on, now);
    CopyBack(tbls, pkts, unprocessPkts, unprocessNum);
  }

  /** One step of `rte_gro_timeout_flush` that checks for room first. */
  method FlushNext(tbls: Tables, out: array<Mbuf>, r: Route, on: Types, ts: nat, num: nat, maxNbOut: nat,
                   ghost d: Drained, ghost base: seq<Mbuf>)
    returns (num': nat)
    requires tbls.Valid() && tbls.State() == d.views && num == |d.out| <= maxNbOut <= out.Length
    requires Holds(out, base, d)
    modifies tbls.Repr(), out
    ensures var d' := FlushMore(d, r, on, ts, maxNbOut);
      tbls.Valid() && tbls.State() == d'.views && num' == |d'.out| <= maxNbOut && Holds(out, base, d')
  {
    NoRoom(d.views, r, ts);
    num' := num;
    if Enabled(on, r) && maxNbOut - num > 0 {
      var k := FlushBehind(tbls, out, r, on, ts, num, maxNbOut, d, base);
      num' := num + k;
    }
  }

  /** The VXLAN steps; the first does not check for room. */
  method FlushVxlanTables(tbls: Tables, out: array<Mbuf>, on: Types, ts: nat, maxNbOut: nat, ghost base: seq<Mbuf>)
    returns (num: nat)
    requires tbls.Valid() && maxNbOut <= out.Length && out[..] == base
    requires on.vxlanTcp ==> maxNbOut > 0 || Total(tbls.State().vxlanTcp) == 0
    modifies tbls.Repr(), out
    ensures var d := FlushVxlan(old(tbls.State()), on, ts, maxNbOut);
      tbls.Valid() && tbls.State() == d.views && num == |d.out| <= maxNbOut && Holds(out, base, d)
  {
    ghost var d := Drained(tbls.State(), []);
    num := 0;
    if on.vxlanTcp {
      num := FlushBehind(tbls, out, VxlanTcp, on, ts, 0, maxNbOut, d, base);
    }
    d := FlushMore(d, VxlanTcp, on, ts, maxNbOut);
    num := FlushNext(tbls, out, VxlanUdp, on, ts, num, maxNbOut, d, base);
  }

  /** The other steps, of which the first writes at the front of `out` again. */
  method FlushOtherTables(tbls: Tables, out: array<Mbuf>, on: Types, ts: nat, num: nat, maxNbOut: nat, ghost v: Drained,
                          ghost base: seq<Mbuf>)
    returns (num': nat)
    requires tbls.Valid() && tbls.State() == v.views && num == |v.out| <= maxNbOut <= out.Length
    requires Holds(out, base, v)
    requires on.gtpTcp ==> num < maxNbOut || Total(v.views.gtpTcp) == 0
    modifies tbls.Repr(), out
    ensures var d := FlushMore(FlushMore(FlushGtpTcp(v, on, ts, maxNbOut), GtpUdp, on, ts, maxNbOut),
                              Tcp4, on, ts, maxNbOut);
      && tbls.Valid() && tbls.State() == d.views && num' == |d.out| <= maxNbOut
      && Holds(out, if on.gtpTcp then Written(base, 0, v.out) else base, d)
  {
    ghost var d := FlushGtpTcp(v, on, ts, maxNbOut);
    ghost var front := if on.gtpTcp then Written(base, 0, v.out) else base;
    num' := num;
    if on.gtpTcp {
      num' := tbls.TimeoutFlush(GtpTcp, ts, out, 0, maxNbOut - num);
    }
    num' := FlushNext(tbls, out, GtpUdp, on, ts, num', maxNbOut, d, front);
    d := FlushMore(d, GtpUdp, on, ts, maxNbOut);
    num' := FlushNext(tbls, out, Tcp4, on, ts, num', maxNbOut, d, front);
  }

  /** `rte_gro_timeout_flush`. The first `num` slots of `out` are what is put out; the
      packets in `lost` are neither among them nor in a table. */
  method TimeoutFlush(tbls: Tables, timeoutCycles: nat, types: Types, enabled: Types, now: nat, out: array<Mbuf>,
                      maxNbOut: nat)
    returns (num: nat)
    requires tbls.Valid() && maxNbOut <= out.Length
    requires HasRoom(tbls.State(), Both(types, enabled), FlushTimestamp(now, timeoutCycles), maxNbOut)
    modifies tbls.Repr(), out
    ensures var f :=
        FlushContext(old(tbls.State()), Both(types, enabled), FlushTimestamp(now, timeoutCycles), maxNbOut);
      && tbls.Valid() && tbls.State() == f.views && num == |f.out| <= maxNbOut && |f.lost| <= maxNbOut
      && out[..] == Written(Written(old(out[..]), 0, f.lost), 0, f.out)
    ensures timeoutCycles <= now < U64 ==>
      forall m :: m in out[..num] ==> Overdue(old(tbls.State()), types, enabled, m, now, timeoutCycles)
    ensures timeoutCycles <= now < U64 && Count(old(tbls.State())) <= maxNbOut ==>
      NoneWaits(old(tbls.State()), tbls.State(), types, enabled, now, timeoutCycles)
  {
    var on := Both(types, enabled);
    var ts := FlushTimestamp(now, timeoutCycles);
    ghost var vs := tbls.State();
    num := FlushAll(tbls, out, on, ts, maxNbOut, out[..]);
    if timeoutCycles <= now < U64 {
      FlushedInTime(vs, types, enabled, now, timeoutCycles, maxNbOut);
    }
  }

  method FlushAll(tbls: Tables, out: array<Mbuf>, on: Types, ts: nat, maxNbOut: nat, ghost base: seq<Mbuf>)
    returns (num: nat)
    requires tbls.Valid() && maxNbOut <= out.Length && out[..] == base && HasRoom(tbls.State(), on, ts, maxNbOut)
    modifies tbls.Repr(), out
    ensures var f := FlushContext(old(tbls.State()), on, ts, maxNbOut);
      && tbls.Valid() && tbls.State() == f.views && num == |f.out| <= maxNbOut && |f.lost| <= maxNbOut
      && out[..] == Written(Written(base, 0, f.lost), 0, f.out)
  {
    ghost var v := FlushVxlan(tbls.State(), on, ts, maxNbOut);
    num := FlushVxlanTables(tbls, out, on, ts, maxNbOut, base);
    num := FlushOtherTables(tbls, out, on, ts, num, maxNbOut, v, base);
    NothingWritten(base);
  }

  lemma NothingWritten(s: seq<Mbuf>)
    ensures Written(s, 0, []) == s
  {}

  /** The two steps that do not check for room find some, or nothing to put out. */
  ghost predicate HasRoom(vs: Views, on: Types, ts: nat, max: nat) {
    && (on.vxlanTcp ==> max > 0 || Total(vs.vxlanTcp) == 0)
    && (on.gtpTcp ==> |FlushVxlan(vs, on, ts, max).out| < max || Total(vs.gtpTcp) == 0)
  }

  /** `rte_gro_get_pkt_count`. */
  method GetPktCount(tbls: Tables, enabled: Types) returns (itemNum: nat)
    requires tbls.Valid()
    ensures itemNum == CountOn(tbls.State(), enabled)
  {
    itemNum := 0;
    if enabled.tcp4 { itemNum := itemNum + tbls.tcp4.itemNum; }
    if enabled.vxlanTcp { itemNum := itemNum + tbls.vxlanTcp.itemNum; }
    if enabled.vxlanUdp { itemNum := itemNum + tbls.vxlanUdp.itemNum; }
    if enabled.gtpTcp { itemNum := itemNum + tbls.gtpTcp.itemNum; }
    if enabled.gtpUdp { itemNum := itemNum + tbls.gtpUdp.itemNum; }
  }

  lemma NoRoom(vs: Views, r: Route, ts: nat)
    ensures FlushOne(vs, r, ts, 0) == Drained(vs, [])
  {}
}
