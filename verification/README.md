# Packet reassembly and friends, modelled and proved

This project models five parts of the repository and proves what they keep.

- **Reassembly tables** (`gro_gtp_udp4.c`, `gro_gtp_tcp4.c`, `gro_tcp4.c`, with the helpers of
  `gro_udp4.h`, `gro_tcp.h` and `gro_tcp_internal.h`; the VXLAN modules are the same code with another
  tunnel header in the flow key). `ItemTable` is the pair of fixed arrays with index-linked chains, as a class
  updated in place. `FlowTable` is the abstract table it represents: per flow slot a key and a chain.
  `Udp` and `Tcp` are the reassembly and flush functions, each a method proved against a function on
  abstract tables; `UdpDelivery` and `TcpDelivery` say by header fields and data alone what the tables take and that
  datagrams and streams come out whole; `UdpLaws`, `UdpOrder`, `Runs`, `UdpDatagrams`, `UdpBridges`, `UdpSessions`, `UdpFlows`,
  `UdpLastFragment`, `UdpParts`, `TcpLaws`, `TcpStreams`, `TcpTimes`, `TcpSessions` and `TcpParts` say what those
  functions keep, for one call and over all runs; `UdpParts` and `TcpParts` run a table that also keeps the packets
  of each item beside the real one, with `Parts` and `FlowMap` to forget them.
- **The driver** (`rte_gro.c`): `Gro` and `GroTables` have its packet loops, in place and with a second array,
  `GroDriver` its four entry points, `GroLaws`, `GroBursts`, `GroReturns`, `GroOvercount`, `GroRuns`, `GroTraces`,
  `GroTimeouts` and `GroDelivery` their laws.
- **The compression performance tests**: `Pipeline` and `PipelineLoops` are the enqueue and dequeue
  loops over a device that accepts any part of a burst, `Segmentation` is how the input is cut into buffers,
  `CompressTest` puts both together.
- **The RSS tool** (`dpdk-rss-flows.py`): `Toeplitz`, `RssFlows`, `RssPorts` and `RssQueues`.

A payload byte is identified by its flow, its offset or sequence number, and its value (`Packets.Unit`).
"Nothing is lost, duplicated or moved" is equality of multisets of such units. A buffer is identified by the
address of its mbuf; an mbuf chain owns a sequence of them.

## Where the code and its documentation part

The model follows the code. These places are results of the project, each with the exact condition and, in
`Witnesses`, `GroOvercount` or `RssPorts`, packets at which it happens.

- A packet with PSH or FIN that is appended to an item has its flags written into its own payload, since the
  TCP header they were meant for was removed just before (`TcpLaws.MergeUnits`, `Witnesses.FlagsInPayload`); in the
  header of what is flushed they are missing, unless the first packet had them too (`TcpParts.FlagsPutOut`).
- A prepended TCP packet sets the recorded inner IPv4 ID to the smaller one, so that the packet after the item
  is not recognised any more (`TcpStreams.MergeInner`, `TcpStreams.SuccessorLost`, `Witnesses.ThirdNotAppended`).
- Section 5 of the repository's README says that a PSH or FIN packet is flushed at once. Only the head of its
  flow becomes due (`TcpTimes.PushFlushesHead`).
- A refused merge can break the order of a chain (`UdpOrder.StepSorted`, `Witnesses.RefusedBehind`;
  `TcpTimes.StepTimes`, `Witnesses.RefusedInFront`).
- `rte_gro_reassemble_burst` returns too high a number when UDP fragments arrive that bridge a gap, by the
  number of these (`GroReturns.ReturnExcess`, `GroOvercount.Overcount`).
- `rte_gro_timeout_flush` drops from its result what it took off the VXLAN tables when GTP TCP is flushed as
  well: the packets are overwritten, or left behind the count it returns
  (`GroRuns.FlushContextConserves`, `Witnesses.PacketLost`).
- A test that only decompresses drops input that does not fit one buffer (`Segmentation.DecompressTakesAll`).
- The cnxk key is symmetric in the addresses but not in the ports (`RssPorts.CnxkPorts`, `RssPorts.OtherQueue`).

## Assumptions

- Header lengths: the packets of a flow have the same headers up to the transport header (`Packets.SameUpToL4`,
  `PacketOk`); `l4_len` may differ. Statements about payload need this, since chaining joins payloads only if the
  headers are equally long (`Packets.ChainPayload`), but they need it of the flows they speak about only: those
  for which `lens` (`FlowLens`) gives lengths. Structure, counts, buffer ownership and order of time need it of none.
- Tunnelled packets have outer headers.
- Arriving packets are single-buffer or at least behave as one byte string when trimmed or cut at the front, and
  their outer IPv4 length fits 16 bits, as `generic_receive_offload_lib.rst` demands of callers.
- Callers of a flush give it room for one packet, or the table is empty (`Udp.TimeoutFlush`,
  `GroDriver.HasRoom`): with neither, the code writes behind its output array.
- `max_flow_num * max_item_per_flow` stays below 2^31, where the code multiplies in an int.

## Model

| member | source | states |
|---|---|---|
| ItemTable.Create | gro/GRO Implementation Files/gro_gtp_udp4.c:13-62 | As many entries as the product asks for, at most 2^20, in a valid table without flows; no table if there would be no entries. |
| ItemTable.Table.constructor | gro/GRO Implementation Files/gro_gtp_udp4.c:25-59 | A new table of a given number of entries is valid and has no flow. |
| ItemTable.Table.FindAnEmptyItem | gro/GRO Implementation Files/gro_gtp_udp4.c:75-84 | The index of a free item, or the sentinel exactly if every item is occupied. |
| ItemTable.Table.InsertNewItem | gro/GRO Implementation Files/gro_gtp_udp4.c:97-128 | Stores an item behind another one and counts it; nothing changes if there is no free item. |
| ItemTable.Table.InsertNewFlow | gro/GRO Implementation Files/gro_gtp_udp4.c:146-181 | Heads the first free flow slot with an item and counts the flow, or reports that no slot is free. |
| ItemTable.Table.Search | gro/GRO Implementation Files/gro_gtp_udp4.c:360-373 | The search that stops once all live flows were compared finds exactly what a full scan of the flow array finds. |
| ItemTable.Table.AddFlow | gro/GRO Implementation Files/gro_gtp_udp4.c:378-394 | A packet of an unknown flow: the abstract table gains a flow with one item, or stays as it is and the result is -1. The arrays represent it again, with acyclic disjoint chains that cover exactly the occupied items, and exact counters. |
| ItemTable.Table.AddBehind | gro/GRO Implementation Files/gro_gtp_udp4.c:410-419 | A packet stored behind a given item of its chain, with the same invariant. |
| ItemTable.Table.AddFirst | gro/GRO Implementation Files/gro_gtp_udp4.c:431-440 | A packet stored in front of its chain, with the same invariant. |
| ItemTable.Table.Change | gro/GRO Implementation Files/gro_gtp_udp4.c:403-408 | An item changed in place, as a merge does: only that position of the chain differs. |
| ItemTable.Table.RemoveFirst | gro/GRO Implementation Files/gro_gtp_udp4.c:514-521 | Taking the flushed head off a chain; the flow is freed with its last item. |
| ItemTable.Table.RemoveSecond | gro/GRO Implementation Files/gro_gtp_udp4.c:478-481 | Unlinking and freeing the second item of a chain after it was merged into the first. |
| FlowTable.NoRollBack | gro/GRO Implementation Files/gro_gtp_udp4.c:378-392 | If a free item was found, a free flow slot exists: the branch that deletes the item again is never taken. |
| FlowTable.StoreKeepsWf | gro/GRO Implementation Files/gro_gtp_udp4.c:378-448 | Every live flow keeps an item, live keys stay pairwise different, items are counted, and -1 changes nothing and means a full table. |
| FlowTable.StoreHeld | gro/GRO Implementation Files/gro_gtp_udp4.c:378-448 | Whatever additive measure a merge keeps, a call adds exactly the packet's share of it to the table, or nothing if the result is -1. |
| FlowTable.FlushKeepsWf | gro/GRO Implementation Files/gro_gtp_udp4.c:491-536 | A flush puts out at most the room it has, never more packets than items leave the table, and flows that stay keep slot, key and an item. |
| FlowTable.FlushHeld | gro/GRO Implementation Files/gro_gtp_udp4.c:491-536 | What a flush takes off the table is what it puts out, for any measure that draining one chain keeps. |
| FlowTable.FlushEmpties | gro/GRO Implementation Files/gro_gtp_udp4.c:491-536 | With room for every item, a drain that empties each chain empties the table, and puts out one packet an item less those it merges into others, summed over the chains. |
| FlowTable.FlushAt | gro/GRO Implementation Files/gro_gtp_udp4.c:491-536 | What a flush does to one flow: it drains that chain with the room that the flows before it left, and no other chain adds a packet of that key. |
| Udp.Scan | gro/GRO Implementation Files/gro_gtp_udp4.c:396-448 | The scan loop merges, inserts or refuses exactly as the recursive decision on the abstract chain says. |
| Udp.Reassemble | gro/GRO Implementation Files/gro_gtp_udp4.c:286-449 | The call does to the arrays what `Udp.Accept` does to the abstract table, early returns included. |
| Udp.MergeItems | gro/GRO Implementation Files/gro_gtp_udp4.c:451-489 | The merge loop before a packet is put out folds the longest possible prefix of the chain into its first item. |
| Udp.TimeoutFlush | gro/GRO Implementation Files/gro_gtp_udp4.c:491-536 | The flush takes the abstract table to `FlowTable.Flush` of it and writes exactly the finished packets to consecutive slots, touching no other slot. |
| UdpLaws.NeighborMeans | gro/dpdk-25.03/lib/gro/gro_udp4.h:247-266 | Positive exactly if the fragment starts where the item ends, negative exactly if it ends where the item starts. |
| UdpLaws.MergeOk | gro/dpdk-25.03/lib/gro/gro_udp4.h:192-245 | A merge concatenates the payloads in place: offset of the front one, one more merged packet, start time kept, all bytes at their offsets, all buffers kept. |
| Packets.ChainPayload | gro/dpdk-25.03/lib/gro/gro_udp4.h:192-245 | Chaining concatenates payloads if and only if both packets have the same header length. |
| UdpLaws.AcceptConserves | gro/GRO Implementation Files/gro_gtp_udp4.c:286-449 | One call keeps every byte of flow and offset of the flows with known header lengths, and every buffer of any flow, whatever overlaps, repeats or is refused; -1 takes nothing. |
| UdpLaws.FlushConserves | gro/GRO Implementation Files/gro_gtp_udp4.c:491-536 | A flush moves those bytes, and the buffers of all flows, from the table to its output without loss, duplication or a new offset. |
| UdpLaws.FinishOk | gro/GRO Implementation Files/gro_gtp_udp4.c:253-284 | The three length fields of a merged packet nest exactly and are its true byte counts without 16-bit truncation, its bytes are where its header says, and More Fragments is clear exactly if the item has the last fragment. |
| UdpSessions.RunBalanced | gro/GRO Implementation Files/gro_gtp_udp4.c:286-536 | In every run of arrivals and flushes the bytes taken, by flow and offset, are those held plus those put out, for any choice of flows whose packets agree in their header lengths, whatever the other flows hold; and so are the buffers of all flows. |
| UdpOrder.StepSorted | gro/GRO Implementation Files/gro_gtp_udp4.c:409-446 | An arrival keeps a chain ordered by offset if and only if it is not refused a merge, or the refused packet goes to the right side of its neighbour. |
| UdpOrder.FuseSorted | gro/GRO Implementation Files/gro_gtp_udp4.c:463-486 | On an ordered chain the merge loop never takes the prepend direction and leaves an ordered chain. |
| UdpSessions.RunSorted | gro/GRO Implementation Files/gro_gtp_udp4.c:286-536 | In every run in which none of these flows sees such a misplaced refusal, their chains stay ordered by offset. |
| UdpSessions.RunFromNew | gro/GRO Implementation Files/gro_gtp_udp4.c:286-536 | Every run of a new table keeps the balance of bytes and buffers, and offset order unless a misplaced refusal breaks it. |
| UdpOrder.NeverRefused | gro/dpdk-25.03/lib/gro/gro_udp4.h:204-217 | No merge of a fragment is refused if each contiguous run of the positions that arrived fits one packet. |
| UdpOrder.StepSeparate | gro/GRO Implementation Files/gro_gtp_udp4.c:396-446 | Items of fragments that do not overlap stay pairwise separate. |
| UdpDatagrams.FlushedRuns | gro/GRO Implementation Files/gro_gtp_udp4.c:396-536 | Fragments that do not overlap, in any order: a flush in which all are due puts out all their bytes and keeps nothing; and it puts them out as the maximal contiguous runs, by increasing offset, if and only if each such run fits one IPv4 packet. |
| Runs.SameRuns | gro/GRO Implementation Files/gro_gtp_udp4.c:463-486 | Maximal runs are determined by the bytes they hold. |
| UdpDatagrams.OrderIndependence | gro/GRO Implementation Files/gro_gtp_udp4.c:396-536 | Two arrival sequences with the same bytes, whose runs fit, cut and ordered differently, come out as the same runs. |
| UdpDatagrams.AnyOrder | gro/GRO Implementation Files/gro_gtp_udp4.c:396-536 | The same packets in any order come out as the same runs. |
| UdpDatagrams.CompleteDatagram | gro/README.md:390-397 | A complete datagram that fits one packet comes out as one, at offset 0 with all its bytes, More Fragments clear exactly if the last fragment was among them. |
| UdpFlows.RunChain | gro/GRO Implementation Files/gro_gtp_udp4.c:286-536 | The chain of a flow is what its own fragments make of it, whatever other flows and flushes come between them, and whatever the packets are. |
| UdpFlows.FlowComesOut | gro/GRO Implementation Files/gro_gtp_udp4.c:286-536 | From any table and after any run with any other flows, whatever their header lengths: a flush with room in which the fragments of a flow are due puts out, among the packets of that flow, exactly what those fragments alone come out as. |
| UdpFlows.FlowRuns | gro/GRO Implementation Files/gro_gtp_udp4.c:286-536 | So fragments of a flow that do not overlap come out of any such table with all their bytes, and as maximal runs if and only if these fit. |
| UdpFlows.FlowOrder | gro/GRO Implementation Files/gro_gtp_udp4.c:286-536 | Order independence in a table: the same bytes of a flow come out as the same runs from any two tables and runs that took them. |
| UdpFlows.AllTaken | gro/GRO Implementation Files/gro_gtp_udp4.c:286-449 | With a free slot for each event every fragment gets in, whatever the packets are. |
| UdpDelivery.TakenIff | gro/dpdk-25.03/lib/gro/gro_udp4.h:270-278 | With a free slot a table takes exactly the IPv4 fragments that have payload: More Fragments set or an offset other than 0, and more bytes than the four header lengths. |
| UdpDelivery.NeverTaken | gro/GRO Implementation Files/gro_gtp_udp4.c:323-333 | Any other packet is handed back by every table and leaves it as it is. |
| UdpDelivery.MergeLimit | gro/dpdk-25.03/lib/gro/gro_udp4.h:204-217 | A neighbour is merged exactly if the outer IPv4 packet stays within 65535 bytes. |
| UdpDelivery.DatagramDelivered | gro/README.md:390-397 | From a new table with a slot for each event, let the fragments of a datagram (two or more, each starting at the byte where the one before it ends, More Fragments clear on the last only) arrive in any order, between any packets of other flows and flushes not yet due for them: all are taken, and the flush for them puts out one packet of the flow, the datagram at offset 0 with More Fragments clear, and leaves nothing of the flow. Told by header fields and data alone. |
| UdpBridges.BridgesMerged | gro/GRO Implementation Files/gro_gtp_udp4.c:396-489 | The merges left for the flush of a flow are as many as fragments arrived after both the run ending where they start and the run starting where they end: the scan joins such a fragment to one side only. |
| UdpLastFragment.RunMarked | gro/GRO Implementation Files/gro_gtp_udp4.c:253-284 | In every run, a packet put out of a flow with known header lengths has More Fragments clear if and only if it contains a last fragment. |
| UdpLastFragment.MarkedFromNew | gro/GRO Implementation Files/gro_gtp_udp4.c:253-284 | The same for every run of a new table. |
| UdpParts.RunBuilt | gro/GRO Implementation Files/gro_gtp_udp4.c:286-536 | In every run each fragment that the table took is in exactly one stored item or one packet put out, and its flow is theirs. For flows with known header lengths each of these is what merging its own fragments gives: one starts where the other ends, payload and buffers are theirs in that order, and it is marked as containing the last fragment exactly if one of them is the last. |
| UdpParts.BuiltFromNew | gro/GRO Implementation Files/gro_gtp_udp4.c:286-536 | The same for every run of a new table. |
| UdpParts.PutOut | gro/GRO Implementation Files/gro_gtp_udp4.c:253-284 | So in every run a fragment put out alone is as it came in, and a merged packet has the header offset of its first fragment, the joined payload, More Fragments exactly if all its fragments have it, and its true byte counts in its three length fields. |
| UdpLaws.SameFlow | gro/GRO Implementation Files/gro_gtp_udp4.c:183-204 | Fragments share a flow if and only if they agree in all fields the comparison names, inner IPv4 ID and TEID included and the outer source port left out. |
| TcpLaws.SameFlow | gro/GRO Implementation Files/gro_gtp_tcp4.c:186-202 | Packets share a flow if and only if they agree in addresses, ports and acknowledgement number and, when tunnelled, in all outer fields and the TEID. |
| Tcp.Scan | gro/dpdk-25.03/lib/gro/gro_tcp_internal.h:74-127 | The scan loop of the plain and the tunnelled module merges, inserts behind the neighbour (plain) or behind its predecessor (tunnelled), or appends, as the recursive decision says. |
| Tcp.TunnelReassemble | gro/GRO Implementation Files/gro_gtp_tcp4.c:284-447 | The call does to the arrays what `Tcp.TunnelAccept` does to the abstract table. |
| Tcp.PlainReassemble | gro/Trace Files/GTP Trace Files/gro_tcp4.c:113-237 | The same for plain packets: trimming, the flag tests, and the head made due by PSH or FIN. |
| Tcp.TimeoutFlush | gro/GRO Implementation Files/gro_gtp_tcp4.c:449-490 | The flush takes due items from the front of each chain, up to the first that is not due, and writes exactly those packets. |
| TcpLaws.CheckMeans | gro/dpdk-25.03/lib/gro/gro_tcp.h:147-190 | A positive test means that the packet continues the item at its sequence number modulo 2^32, a negative one that the item continues the packet; atomic and other packets never mix, inside or outside. |
| TcpDelivery.CheckIff | gro/dpdk-25.03/lib/gro/gro_tcp.h:147-190 | Exactly when a packet is appended or prepended: equal TCP header length, options and Don't Fragment bits, the sequence number continues modulo 2^32, and so do the IPv4 IDs, inner and outer, of packets without Don't Fragment; prepending counts back by the merged packets. |
| TcpDelivery.MergeLimits | gro/dpdk-25.03/lib/gro/gro_tcp.h:103-114 | A neighbour is merged exactly if the IPv4 packet stays within 65535 bytes and the front part has fewer than 20 segments. |
| TcpDelivery.TunnelTakenIff | gro/GRO Implementation Files/gro_gtp_tcp4.c:310-340 | With a free slot a table takes exactly the tunnelled packets with a TCP header of 20 to 60 bytes, ACK alone and payload. |
| TcpDelivery.PlainTakenIff | gro/Trace Files/GTP Trace Files/gro_tcp4.c:136-237 | With a free slot a table takes exactly the plain packets with such a header and payload and no flags but FIN, PSH and ACK: any of these for a known flow, ACK alone for another. |
| TcpDelivery.PaddingIgnored | gro/Trace Files/GTP Trace Files/gro_tcp4.c:152-155 | Padding behind the length that the IPv4 header gives changes neither the table nor the result, and the packet loses it if it passes the tests before. |
| TcpDelivery.TrimmedData | gro/Trace Files/GTP Trace Files/gro_tcp4.c:152-155 | A longer packet is cut behind its Ethernet header and its IPv4 length, and only there. |
| TcpDelivery.StreamDelivered | gro/dpdk-25.03/lib/gro/gro_tcp.h:85-190 | From a new table with a slot for each event, let packets of a flow arrive in order (consecutive sequence numbers, equal headers, options and Don't Fragment bits, consecutive IPv4 IDs where Don't Fragment is clear, ACK alone, together at most 65535 bytes and 20 segments before the last merge), plain or tunnelled, between any other packets and flushes not yet due for them: all are taken, and the flush for them puts out one packet of the flow with all their payload and buffers and true lengths, and leaves nothing of the flow. |
| TcpLaws.MergeOk | gro/dpdk-25.03/lib/gro/gro_tcp.h:81-143 | A merge keeps the item's start time, adds one to its count, stays within the 16-bit length, and concatenates payloads in sequence order, the packet's own as the flag update leaves it. |
| TcpLaws.MergeUnits | gro/dpdk-25.03/lib/gro/gro_tcp.h:134-139 | A merge keeps every byte at its sequence number if and only if no flags are written into the payload: for an appended packet with PSH or FIN the flag byte is looked up behind headers that were just removed. |
| TcpLaws.MergeFlags | gro/dpdk-25.03/lib/gro/gro_tcp.h:134-139 | The header of a merged packet has all flags of the packet exactly if it was prepended or the item had them already, and all flags of the item exactly if the packet was appended or has them. |
| TcpLaws.StoreConserves | gro/GRO Implementation Files/gro_gtp_tcp4.c:411-447 | One stored or merged packet loses no buffer, and, if its flow has known header lengths, no byte or place of a byte unless flags are written into it. |
| TcpLaws.FlushConserves | gro/GRO Implementation Files/gro_gtp_tcp4.c:449-490 | A flush moves bytes and buffers to its output without loss or a new sequence number. |
| TcpLaws.FinishOk | gro/GRO Implementation Files/gro_gtp_tcp4.c:259-282 | The length fields of a merged packet nest exactly and are its true byte counts; payload, flow and sequence number are the item's. |
| TcpSessions.RunBalanced | gro/GRO Implementation Files/gro_gtp_tcp4.c:284-490 | In every run all buffers are held or were put out; and so are, for any choice of flows whose packets agree in the headers before the TCP header, all bytes with their sequence numbers, as long as no flags are written into payload of these flows. The length of the TCP header may differ within a flow. |
| TcpSessions.TunnelIntact | gro/GRO Implementation Files/gro_gtp_tcp4.c:325-330 | For tunnelled packets that is always so, since they carry ACK alone. |
| TcpSessions.AckIntact | gro/dpdk-25.03/lib/gro/gro_tcp.h:134-139 | For plain packets it is so in every run in which these flows see no PSH and FIN. |
| TcpStreams.MergeBuilt | gro/GRO Implementation Files/gro_gtp_tcp4.c:204-257 | One merge, plain or tunnelled: if an item is what merging its packets gives, it is so with one packet more at the end it was merged to. The packets are of one flow and in sequence order, the header is that of the first, buffers and payload are theirs in that order (the bytes as long as all carry ACK alone), and the outer IPv4 IDs of tunnelled packets that are not atomic are the consecutive integers up to the recorded one, without wrap. |
| TcpStreams.MergeInner | gro/dpdk-25.03/lib/gro/gro_tcp.h:118-131 | The same for the inner ID holds after an append, and after a prepend exactly for atomic packets: the record is set to the smaller ID. |
| TcpStreams.SuccessorLost | gro/dpdk-25.03/lib/gro/gro_tcp.h:118-131 | So after a prepend the packet that continues the item is no longer recognised, on either side. |
| TcpParts.RunBuilt | gro/GRO Implementation Files/gro_gtp_tcp4.c:284-490 | In every run each packet that the table took is in exactly one stored item or one packet put out; these are of its flow, and the header and the buffers are theirs. For flows with known header lengths each stored item is what merging its own packets gives, in the sense of `TcpStreams.MergeBuilt`, and each packet put out is such an item finished. |
| TcpParts.BuiltFromNew | gro/GRO Implementation Files/gro_gtp_tcp4.c:284-490 | The same for every run of a new table. |
| TcpParts.FlagsPutOut | gro/dpdk-25.03/lib/gro/gro_tcp.h:134-139 | In every run the flags in the header of a packet put out are those of its first packet, so those of another packet in it survive exactly if the first has them as well. |
| TcpParts.PutOut | gro/GRO Implementation Files/gro_gtp_tcp4.c:259-282 | So in every run a packet put out alone is as the table got it, and a merged one has the joined payload (byte for byte if all its packets carry ACK alone) and its true byte counts in its length fields. |
| TcpTimes.StepTimes | gro/GRO Implementation Files/gro_gtp_tcp4.c:428-434 | An arrival in order of time keeps a chain ordered by start time if and only if it is not refused a merge in front of an older-stamped item. |
| TcpTimes.FlushTakesDue | gro/GRO Implementation Files/gro_gtp_tcp4.c:449-490 | On chains in order of time a flush with room removes exactly the items whose start time is due, and puts out one packet for each. |
| TcpSessions.RunTimely | gro/GRO Implementation Files/gro_gtp_tcp4.c:284-490 | In every run of punctual arrivals, whatever the packets are, flushes and heads made due included, all chains stay in order of time. |
| TcpSessions.TimelyFromNew | gro/GRO Implementation Files/gro_gtp_tcp4.c:284-490 | The same for every run of a new table. |
| TcpSessions.RunFromNew | gro/GRO Implementation Files/gro_gtp_tcp4.c:284-490 | In every run of a new table buffers are owned once, and bytes of flows with known header lengths keep their sequence numbers (tunnelled always, plain unless flags are written into payload, so always without PSH and FIN). |
| TcpTimes.PushFlushesHead | gro/Trace Files/GTP Trace Files/gro_tcp4.c:195-211 | A plain packet with PSH or FIN of a known flow, stored, merged or refused, in a table in which nothing is due: the next flush puts out the head of its flow alone and leaves everything else. The data of the packet is in it if and only if the packet was merged into the head. |
| TcpTimes.RefusalEffect | gro/Trace Files/GTP Trace Files/gro_tcp4.c:195-236 | A refused plain packet leaves the table as it was, except exactly when it made a head due. |
| GroTables.Tables.Reassemble | gro/GRO Implementation Files/rte_gro.c:335-404 | One packet goes through the table of its type and no other table changes. |
| GroTables.Tables.TimeoutFlush | gro/GRO Implementation Files/rte_gro.c:412-442 | One table is drained behind what is in the array, and no other table changes. |
| GroTables.ProcessInPlace | gro/GRO Implementation Files/rte_gro.c:335-405 | The loop that moves packets down in the array it reads leaves exactly the packets handed back, in order, at the front, and counts merges exactly. |
| GroTables.ProcessCopying | gro/Trace Files/Trace Files/rte_gro.c:272-332 | The loop with a second array hands back the same packets in the same order with the same counts. |
| GroDriver.ReassembleBurst | gro/GRO Implementation Files/rte_gro.c:181-447 | The array and the result of a burst: packets handed back, then the flushed tables in the order of the code; untouched if no type is enabled. |
| GroDriver.ReassembleBurstCopying | gro/Trace Files/Trace Files/rte_gro.c:272-367 | The form with a second array and `memcpy` meets the same contract, so the in-place form refines it. |
| GroLaws.ProcessAllOk | gro/GRO Implementation Files/rte_gro.c:335-405 | Of the packets, some come back, some were merged and each other one is an item; no buffer is lost or duplicated. |
| GroBursts.BurstAccounting | gro/GRO Implementation Files/rte_gro.c:404-447 | `nb_after_gro` is the packets handed back plus the items, so each flush has room and empties its table, and all buffers end up in the array. It exceeds the number of packets in the array by exactly the merges done while the UDP tables are flushed. |
| GroBursts.StepCounts | gro/GRO Implementation Files/rte_gro.c:412-442 | Each flush call of a burst has room for its whole table and empties it, one packet an item less the merges. |
| GroReturns.ReturnExcess | gro/GRO Implementation Files/rte_gro.c:404-447 | For fragments that do not overlap and whose runs fit: the return value exceeds the number of packets by exactly the number of UDP fragments taken that bridge a gap when they arrive, and is right if and only if there are none. |
| GroReturns.ReturnOnArrivals | gro/GRO Implementation Files/rte_gro.c:404-447 | If each UDP table has a slot for every fragment sent to it, that number can be counted on the packets before the call. |
| GroOvercount.Overcount | gro/GRO Implementation Files/rte_gro.c:426-447 | A family of bursts with one such fragment: three adjacent fragments, the third arriving second, return 2 and leave one packet. |
| GroDriver.Reassemble | gro/GRO Implementation Files/rte_gro.c:450-535 | The context form: same loop, tables kept, the number handed back is returned. |
| GroDriver.ReassembleCopying | gro/Trace Files/Trace Files/rte_gro.c:368-441 | The context form with a second array, with the same contract. |
| GroDriver.TimeoutFlush | gro/GRO Implementation Files/rte_gro.c:537-607 | What ends up in the output array, in the tables and in the result, including the GTP TCP step that starts again at the first slot and replaces the count. If the timeout is not more than the time: each packet put out belongs to an item that has waited for the timeout, of a type asked for and enabled; and with a slot for every packet of the context none is left that has. |
| GroTimeouts.DueIff | gro/GRO Implementation Files/rte_gro.c:550-550 | An item is due exactly if its arrival plus the timeout is not later than now; or, when the subtraction wraps, not later than now plus 2^64. |
| GroTimeouts.FlushedInTime | gro/GRO Implementation Files/rte_gro.c:537-607 | The same of a flush of a context on abstract tables: only packets of items that have waited come out, for a UDP packet the item it was merged to; TCP items of flows in order of time and first UDP items of flows that have waited do not stay; tables of other types do not change. |
| GroDelivery.FirstMatch | gro/GRO Implementation Files/rte_gro.c:340-404 | A packet goes to the first table, in the order of the tests, of a type that is enabled and whose test it passes, and to none if there is no such type. |
| GroDelivery.OnePacket | gro/GRO Implementation Files/rte_gro.c:335-405 | A packet of one kind goes to the table of its type if that is enabled, as it does alone, and is handed back otherwise; no other table changes. |
| GroDelivery.AllTaken | gro/GRO Implementation Files/rte_gro.c:450-535 | Tables with a free slot for each packet hand back none of the packets that reassembly is meant for, by their type and header fields. |
| GroDelivery.BurstTakesAll | gro/GRO Implementation Files/rte_gro.c:240-242 | A burst of at most 128 such packets, and of no more than the flows times the items asked for, hands back none. |
| GroRuns.FlushContextConserves | gro/GRO Implementation Files/rte_gro.c:549-571 | If every VXLAN item owns a buffer, a flush of a context loses no buffer if and only if it is not the case that GTP TCP is flushed, there is a slot, and a VXLAN table that is flushed has a due head. |
| GroRuns.LostWhen | gro/GRO Implementation Files/rte_gro.c:549-571 | Those are exactly the flushes that drop packets of a VXLAN table from their result. |
| GroRuns.RunOwns | gro/GRO Implementation Files/rte_gro.c:450-607 | Every VXLAN item owns a buffer in every run in which every packet does. |
| GroRuns.NoVxlan | gro/GRO Implementation Files/rte_gro.c:566-571 | Without VXLAN types and with one slot, every step has room and nothing is lost. |
| GroRuns.RunConserves | gro/GRO Implementation Files/rte_gro.c:450-630 | Over every run of a context each buffer is handed back, in one item, in one packet put out, or dropped from the result of a flush, the last never if the types are safe; the packet count is the number of items. |
| GroRuns.RunFromNew | gro/GRO Implementation Files/rte_gro.c:450-630 | The same for every run of a new context. |
| GroDriver.GetPktCount | gro/GRO Implementation Files/rte_gro.c:609-630 | The packet count is the sum of the items of the enabled types. |
| GroTraces.UdpProjection | gro/GRO Implementation Files/rte_gro.c:450-607 | In every run of a context each UDP table does what it does alone on the packets routed to it and the flushes with the room left for it, and what it puts out is among what the context puts out or drops from a result. |
| GroTraces.UdpBytesInContext | gro/GRO Implementation Files/rte_gro.c:450-607 | So in a context each fragment that a UDP table took is in exactly one item or packet put out, built from its own fragments as `UdpParts.RunBuilt` says, and the payload bytes the table took, by flow and offset, are those it holds plus those of the packets it put out. |
| GroTraces.TcpProjection | gro/GRO Implementation Files/rte_gro.c:450-607 | The same for each TCP table, plain packets as trimming leaves them. |
| GroTraces.TcpBytesInContext | gro/GRO Implementation Files/rte_gro.c:450-607 | In a context each packet that a TCP table took is in exactly one item or packet put out, built from its own packets as `TcpParts.RunBuilt` says, and the bytes taken are those held plus those put out, by flow and sequence number: for tunnelled tables always, for the plain table if no payload is changed. |
| GroTraces.UdpFromNew | gro/GRO Implementation Files/rte_gro.c:450-607 | The same for a UDP table in every run of a new context. |
| GroTraces.TcpFromNew | gro/GRO Implementation Files/rte_gro.c:450-607 | The same in every run of a new context, where for the plain table it is enough that no packet sent to it carries PSH or FIN. |
| GroTraces.TakenCame | gro/Trace Files/GTP Trace Files/gro_tcp4.c:152-155 | In every run of a new context, the packets a TCP table takes, whose bytes the other results are about, are packets that arrived for it, plain ones cut to their IPv4 length. |
| Witnesses.FlagsInPayload | gro/dpdk-25.03/lib/gro/gro_tcp.h:134-139 | A plain packet with PSH appended to one with ACK alone: byte 47 of its payload comes out as 0x18 instead of 0. |
| Witnesses.ThirdNotAppended | gro/dpdk-25.03/lib/gro/gro_tcp.h:118-131 | Three consecutive tunnelled packets are one item in order, and two items if the first two are swapped. |
| Witnesses.DifferentL4 | gro/dpdk-25.03/doc/guides/prog_guide/generic_receive_offload_lib.rst:199-205 | The two fragments of a datagram with `l4_len` set to the headers they have, 8 and 0: they come out as the datagram, in whatever order they arrive. |
| Witnesses.DifferentHeaders | gro/dpdk-25.03/lib/gro/gro_tcp.h:147-190 | Two packets of one TCP flow whose headers have 20 and 32 bytes may arrive in one run; they are consecutive, but are kept as two items. |
| Witnesses.RefusedBehind | gro/GRO Implementation Files/gro_gtp_udp4.c:409-424 | A fragment of 33000 bytes at offset 0 that is refused and put behind an item at offset 33000. |
| Witnesses.RefusedInFront | gro/dpdk-25.03/lib/gro/gro_tcp_internal.h:74-127 | A plain packet refused for its length and put in front of one that came earlier. |
| Witnesses.PacketLost | gro/GRO Implementation Files/rte_gro.c:549-571 | One VXLAN packet in a context that also has GTP TCP: after a flush with room for two it is in no table and not in the result. |
| PipelineLoops.Device.DequeueBurst | gro/dpdk-25.03/app/test-compress-perf/comp_perf_test_throughput.c:215-219 | The device hands back any operations in flight, at most a burst; they fit the second half of the array. |
| PipelineLoops.MoveToFront | gro/dpdk-25.03/app/test-compress-perf/comp_perf_test_throughput.c:146-155 | Operations the device did not accept move to the front and keep their order. |
| PipelineLoops.SetUp | gro/dpdk-25.03/app/test-compress-perf/comp_perf_test_throughput.c:169-193 | New operations get the next buffers; since slots in use are all different, no operation in flight is changed. |
| PipelineLoops.Refill | gro/dpdk-25.03/app/test-compress-perf/comp_perf_test_throughput.c:141-193 | The number of operations needed never underflows and the pool of twice the buffers never runs out. |
| PipelineLoops.Iteration | gro/dpdk-25.03/app/test-compress-perf/comp_perf_test_throughput.c:132-307 | The loops over pool, array and device refine the line of buffers; at a normal end nothing is allocated, nothing is in flight and the pool is full again. |
| PipelineLoops.Collect | gro/dpdk-25.03/app/test-compress-perf/comp_perf_test_verify.c:227-260 | The verify loop appends the results of the operations it got back, in that order. |
| Pipeline.RunLaws | gro/dpdk-25.03/app/test-compress-perf/comp_perf_test_throughput.c:141-252 | For every sequence of accept counts, buffers are handed over in order, and each one handed over is in flight or back exactly once; a device that keeps order gives them back in order. |
| Pipeline.NothingInFlight | gro/dpdk-25.03/app/test-compress-perf/comp_perf_test_throughput.c:254-307 | When all buffers were accepted and as many came back, each came back once. |
| Pipeline.RunCounts | gro/dpdk-25.03/app/test-compress-perf/comp_perf_test_throughput.c:141-193 | The first loop hands over as many buffers as the device accepts, up to all of them. |
| Pipeline.FinishesIff | gro/dpdk-25.03/app/test-compress-perf/comp_perf_test_throughput.c:132-307 | An iteration comes to its normal end if and only if the device accepts all buffers and hands back in the second loop what it kept in the first. |
| Pipeline.OutputInOrder | gro/dpdk-25.03/app/test-compress-perf/comp_perf_test_verify.c:136-377 | With a device that keeps order a finished iteration has collected the results of all buffers in buffer order. |
| Segmentation.BuffersLaws | gro/dpdk-25.03/app/test-compress-perf/comp_perf_test_common.c:236-250 | The buffers hold exactly the input, in segments of at most the segment size, at most the allowed number each, and as many segments and buffers as were counted on. |
| Segmentation.FillSegments | gro/dpdk-25.03/app/test-compress-perf/comp_perf_test_common.c:397-458 | The loop cuts the next buffer off the input and never runs out of segments. |
| Segmentation.PrepareBufs | gro/dpdk-25.03/app/test-compress-perf/comp_perf_test_common.c:366-555 | Input buffers hold the cut input, output buffers mirror them in number of segments, and both pools suffice; for decompression alone the one input buffer holds a prefix of the input. |
| Segmentation.DecompressTakesAll | gro/dpdk-25.03/app/test-compress-perf/comp_perf_test_common.c:461-545 | That prefix is the whole input if and only if it fits the allowed number of segments; the rest is dropped without an error. |
| CompressTest.VerifyRoundTrip | gro/dpdk-25.03/app/test-compress-perf/comp_perf_test_verify.c:408-447 | Two passes of the loops: if decompression undoes compression on every buffer and the device keeps order in the second pass, whatever it does in the first, the verify test gets its input back byte for byte. |
| CompressTest.AllocationFits | gro/dpdk-25.03/app/test-compress-perf/comp_perf_test_common.c:252-254 | Results that fit their own output buffers fit the memory allocated for the output, at every point of a run and in whatever order they come back. |
| Toeplitz.Keyword | gro/dpdk-25.03/usertools/dpdk-rss-flows.py:91-103 | The key word formed by shifts is the 32 key bits from that bit on, or an index error exactly if the key is too short for them. |
| Toeplitz.ToeplitzHash | gro/dpdk-25.03/usertools/dpdk-rss-flows.py:84-105 | The loops compute the exclusive or of the key windows at the set bits; an index error occurs exactly if the key does not reach behind a set bit. |
| Toeplitz.Linear | gro/dpdk-25.03/usertools/dpdk-rss-flows.py:84-105 | The hash is linear over exclusive or of data of equal length. |
| Toeplitz.SwapIff | gro/dpdk-25.03/usertools/dpdk-rss-flows.py:84-105 | Two neighbouring fields of equal size can be swapped, whatever they hold, if and only if the key windows at their bits are the same. |
| RssFlows.ReverseSameQueue | gro/dpdk-25.03/usertools/dpdk-rss-flows.py:32-46 | A packet and its reverse go to the same queue if the key repeats itself after a number of bits that divides all hashed fields. |
| RssFlows.CnxkSymmetry | gro/dpdk-25.03/usertools/dpdk-rss-flows.py:195-209 | So it is for the cnxk key, any two addresses and any redirection table, when ports are not hashed. |
| RssPorts.SwapDifference | gro/dpdk-25.03/usertools/dpdk-rss-flows.py:84-105 | Swapping two fields changes the hash by the hash of the bits in which they differ, under the differences of the key windows. |
| RssPorts.CnxkPorts | gro/dpdk-25.03/usertools/dpdk-rss-flows.py:195-209 | With ports hashed, the cnxk key hashes a packet and its reverse alike if and only if the two ports are equal, for IPv4 and IPv6 addresses of any value. |
| RssPorts.EqualPorts | gro/dpdk-25.03/usertools/dpdk-rss-flows.py:195-209 | Between equal ports a packet and its reverse go to one queue, whatever the table. |
| RssPorts.OtherQueue | gro/dpdk-25.03/usertools/dpdk-rss-flows.py:195-209 | A packet whose reverse goes to the other of two queues, for every table of even size. |
| RssQueues.SameQueueIff | gro/dpdk-25.03/usertools/dpdk-rss-flows.py:107-117 | With 2^f queues and a table of a power of two of at least that size, a packet and its reverse share a queue if and only if f certain counts of seven of the bits in which the ports differ are even, or all sixteen if f is larger: the last f bits of the hash difference. |
| RssQueues.SameEntryIff | gro/dpdk-25.03/usertools/dpdk-rss-flows.py:79-81 | With any number of queues from the table size 2^e on, they share one if and only if e of these counts, or all sixteen, are even. |
| RssQueues.AllCountsEven | gro/dpdk-25.03/usertools/dpdk-rss-flows.py:195-209 | All sixteen counts are even if and only if the ports are equal. |
| RssFlows.GetQueueIndex | gro/dpdk-25.03/usertools/dpdk-rss-flows.py:107-117 | The queue the redirection table has for the masked hash, or an index error. By the fields of the packet: the hash is the exclusive or of the key windows at the set bits of source address, destination address, source port and destination port, in this order, and an index error occurs exactly if the table is empty or the key does not reach behind a set bit of a field. |
| RssFlows.QueueByFields | gro/dpdk-25.03/usertools/dpdk-rss-flows.py:32-46 | The same of the function the method computes. |
| RssFlows.QueueNumber | gro/dpdk-25.03/usertools/dpdk-rss-flows.py:79-117 | With a table of a power of two the queue is that hash modulo the size, modulo the number of queues. |
| RssFlows.QueueInRange | gro/dpdk-25.03/usertools/dpdk-rss-flows.py:79-81 | The queue is one of the queues. |
| RssFlows.OffsetIsRemainder | gro/dpdk-25.03/usertools/dpdk-rss-flows.py:113-115 | For a table size that is a power of two the masked hash is the hash modulo the size. |

## Left out

- Parsing headers from bytes, byte order and checksums: packets carry parsed fields, and the packet type is classified by an arbitrary function.
- The GTP-U Length field (section 5.1 of 3GPP TS 29.281): the code does not update it, and no claim is made about it.
- Plain UDP/IPv4 and TCP/IPv6 tables: those types are taken as not enabled.
- Clocks and memory: time stamps are inputs, allocation never fails, mbufs are values and a pointer handed to a table is not used again.
- GroTables.ProcessInPlace: slots behind the packets handed back hold stale pointers in the code; the model says they hold those packets as the calls left them, which matters only until the flush overwrites them.
- Udp.TimeoutFlush: nothing is said for a call without room on a table that is not empty, where the code writes out of bounds.
- Tcp.TimeoutFlush: the same.
- GroTables.Tables.TimeoutFlush: the same.
- GroDriver.TimeoutFlush: the same, for each of its steps that does not check for room (`GroDriver.HasRoom`).
- TcpLaws.MergeOk: a flag write that would fall behind the end of the packet's data is modelled as having no effect, where the code writes to whatever is there.
- Tcp.PlainReassemble: trimming is modelled on the whole packet, which is exact for single-buffer packets only.
- PipelineLoops.Iteration: the device answers from a finite list, and an iteration that has used it up stops as when the user aborts; nothing is claimed about termination otherwise, about device errors, or about the clean-up after them. The two halves of the operation array are two arrays.
- GroRuns.RunConserves: covers flushes with too little room as well, but describes them as flushes that stop in time, where the code writes out of bounds; `GroDriver.TimeoutFlush` is for flushes with room only.
- GroTraces.UdpProjection: the same for flushes with too little room, here and in the other members of `GroTraces`.
- GroReturns.ReturnExcess: for fragments that overlap or whose runs do not fit one packet, the excess is stated as the merges done while flushing only (`GroBursts.BurstAccounting`).
- RssQueues.SameQueueIff: numbers of queues that are neither a power of two nor at least the size of the table; which queue two hashes share then is not a matter of their difference alone.
- The contents and time of compression itself: a device computes an arbitrary function of each buffer.
- Segmentation.PrepareBufs: attaching external memory and copying into it, beyond the count of segments used.
- Shortening the segment lengths of output buffers after the last iteration (`comp_perf_test_throughput.c`, lines 222-249).
- Buffer sizes rounded up to powers of two (`find_buf_size`), printing, options and file handling of the compression tests.
- RssFlows.GetQueueIndex: ports are given as the two bytes that are hashed; choosing traffic until every queue has some (`balanced_traffic`) is not modelled.
- The other programs and scripts of the repository: command lines, sockets, files and devices.
