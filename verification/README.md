# Verified model of the 48-channel USB to Dante transmitter

The repository is gateware (Migen) and firmware (C) that take 48 channels of audio from USB and send
them as Dante flows. This project models its clocked state machines and the firmware that programs
them, and proves what they keep over every run.

A clocked block is a class whose `Clock` method is one clock edge, proved to be a function `Next` of
its registers; the theorems are about runs, that is, any sequence of inputs. A C module is a class
whose methods are its functions, proved to do what a function on their values says.

| file | what it models |
|---|---|
| `Bytes`, `Arith` | octets, words, facts about quotients and remainders |
| `Geometry` | packet shapes, the 51-byte header, the stamp borrow |
| `SampleRing` | the six channel-addressed rings, fill level, prime hysteresis, read anchor |
| `MediaPacer` | timestamp counter, phase counters, read pointer, snapshot registers |
| `FrameBuilder` | pending latch, walk, byte-per-cycle build, RAM pipelines, streaming |
| `FrameTheorem`, `WalkTheorem` | what the builder puts on the wire; that no due is lost and every walk ends |
| `Packetizer`, `StreamTheorem`, `SilenceTheorem` | the three wired together; host to wire, no crosstalk; silence after the write pointer wraps |
| `Reconfiguration` | what an unbind or rebind in the middle of a frame does to it |
| `PacingTheorem` | oscillator, pacer and builder together: which flows lose no due |
| `DeliveryTheorem` | the firmware's table and the packetizer together: what a bound flow sends, and where |
| `SeedTheorem` | the firmware's phase seeding loop against the pacer it seeds |
| `TxArbiter` | the frame-atomic transmit arbiter |
| `ContextBank`, `FlowTable`, `FlowRefinement` | the indirect register bank, the C flow table, and their refinement |
| `Checksum` | ones-complement sums, the firmware's and the gateware's IPv4 header |
| `Seqlock` | reading the emitted stamp against the packetizer |
| `Nco`, `RateServo` | the sample-rate oscillator and the slew-limited servo that owns it |
| `RxGate`, `RxTimestamps` | the receive allow-list; the timestamp ring popped in step with receive slots |
| `ArcPaging` | the message builder and the paged channel replies |
| `Net`, `Datagram` | ARP cache, port table, building and receiving UDP datagrams |
| `ConfigStore` | the checksummed flash record |

Time, clocks, register accesses by other code and the arrival of packets are inputs: a run may
interleave them in any way. Registers have their widths; a C or Migen operator that wraps or
truncates is written out.

## Where the code departs from what it says

Each of these is stated exactly, not assumed away.

- The last frame word loses a byte (dante_packetizer.py:1230-1234 against the comment above it): the
  frame is the specified one exactly when the two lower transmitted bytes of the last sample are zero
  (`FrameTheorem.FrameIntactIff`).
- `ts_offset` is said to be safe only at zero (dante_tx.c:287-299); it is safe exactly below the
  flow's fpp (`MediaPacer.OffsetSafeIff`).
- The level is the difference of two 32-bit registers, not a difference modulo 2^32
  (dante_packetizer.py:375-379). When the write pointer wraps, about three hours into a stream, the
  talker falls silent: for all but 129 frames of another turn of the pointer, and until it is disabled
  if the writer was at most half a ring ahead (`SilenceTheorem.SilentAfterWrap`,
  `SilenceTheorem.SilentWhileEnabled`).
- Re-anchoring rewrites `flow_cfg` without the channel map (dante_tx.c:725-753): every bound flow then
  sends the map written last (`FlowRefinement.MapsAfterAnchorIff`).
- The two phase seeding paths agree exactly when fpp divides the strobes that pass between the load
  request and the seeding write (`MediaPacer.AnchorSeeds`).
- `have_space` does not keep the look-back window free: at a level of 2040 the rest of a frame is let
  through and lands on samples the reader has yet to look back at (`SampleRing.WriteClobbersIff`,
  `SampleRing.HaveSpaceTooWide`).
- The stamp a due latches is said to be its own packet's (dante_packetizer.py:659-662); the snapshot is
  one set of registers for all contexts, and describes a due exactly until the next strobe at which any
  context is due (`MediaPacer.SnapshotIntactIff`).
- A flow unbound or rebound to a shorter shape in the middle of a frame (dante_packetizer.py:1253-1287):
  a frame is never longer than its context calls for exactly while the last index shown is not behind
  the word index; otherwise the index runs round and the frame has 512 words more, 525 for an unbound
  flow (`Reconfiguration.NeverTooLongIff`, `Reconfiguration.UnboundInStream`).
- A context unbound with its due pending keeps it for ever (`WalkTheorem.OrphanNeverCleared`).
- `dante_tx_ctx_for_id` can return a unicast flow (`FlowRefinement.CtxForIdIff`,
  `FlowRefinement.WrongFlowDeleted`); a bind can hijack a multicast context
  (`FlowRefinement.SocketsUniqueIff`, `FlowRefinement.BundleHijacked`).
- The multicast eviction is said always to pick the stalest flow (dante_tx.c:997-1006); ages stop
  counting at an hour, so it does exactly when no flow past the hour stands before a younger one that
  is past it too (`FlowRefinement.McastEvictsStalestIff`,
  `FlowRefinement.StalestSpared`).
- The gate's link-local rule masks four bytes where its comments say five, and it drops some
  FF:FF:FF addresses the software keeps (`RxGate.LinkLocalRuleWide`, `RxGate.SupersetIff`).
- The receive resync is said to be self-healing; from any surplus, the ring full of stale entries at
  boot included, it leaves a backlog of two minus the frames pending, less the commits that meanwhile
  found the ring full (`RxTimestamps.ResyncLeaves`, `RxTimestamps.BacklogStays`).
- An agreeing read of the emitted stamp is a pair held together exactly if the emitted seconds never
  come back to a value they have left; a re-anchor can make them (`Seqlock.AgreementSoundIff`,
  `Seqlock.ReanchorGoesBack`).
- A saved rate at the clamp is ignored at the next boot (`RateServo.BootResumesIff`,
  `RateServo.ClampSavedThenIgnored`).
- A full channel sweep is said to take three or four requests (dante_arc.c:210-213); it takes two
  (`ArcPaging.SessionLength`).

## Model

| member | source | states |
|---|---|---|
| Geometry.PayLenIsProduct | dante_packetizer.py:842-857 | the shift network computes three times slots times fpp, without overflow, for every shape |
| Geometry.WholeWordsIff | dante_packetizer.py:737-742 | the payload is whole words exactly when it is not fpp 2 with an odd slot count |
| Geometry.ShapeFrames | dante_packetizer.py:858-863 | every shape the firmware binds gives a frame length and last-word index the builder can count to |
| FrameBuilder.Builder.NextContext | dante_packetizer.py:1167-1179 | the walk goes to the next context with its counters restarted, or back to IDLE after the last |
| FrameBuilder.Builder.CommitByte | dante_packetizer.py:1192-1200 | a byte goes to its lane, a full word to the frame RAM, the last byte to the last word |
| FrameBuilder.Builder.CountByte | dante_packetizer.py:1209-1228 | sample latch, fetch position and byte phase after one byte |
| FrameBuilder.Builder.BuildState | dante_packetizer.py:1192-1240 | one byte of BUILD as one register transfer |
| FrameBuilder.Builder.StreamState | dante_packetizer.py:1253-1287 | one accepted word of STREAM as one register transfer |
| FrameBuilder.Builder.FsmState | dante_packetizer.py:1124-1287 | the whole state machine as one register transfer |
| FrameBuilder.Builder.Clock | dante_packetizer.py:772-802 | one clock edge: state machine, pending latches with set over clear, both RAM read pipelines, and the beat offered |
| FrameTheorem.FetchStep | dante_packetizer.py:1099-1106 | the slot and sample counters are quotient and remainder of the fetch position, for every slot count |
| FrameTheorem.FetchedWord | dante_packetizer.py:1071-1098 | the word arriving a cycle later is the window's word at the fetch position |
| FrameTheorem.PipeStep | dante_packetizer.py:1201-1221 | the one-cycle-latency pipeline has each sample in its hold register when its bytes go out |
| FrameTheorem.BuiltByte | dante_packetizer.py:1037-1046 | the byte leaving BUILD is the frame's byte at that index |
| FrameTheorem.WordStep | dante_packetizer.py:1150-1153 | the frame RAM holds the frame's words so far, and all of them after the last byte |
| FrameTheorem.PrimedThroughout | dante_packetizer.py:1130 | a packet is audio or silence as a whole |
| FrameTheorem.FrameInProgress | dante_packetizer.py:1192-1287 | until completion the accepted words are a prefix of the frame, under any ready pattern |
| FrameTheorem.FrameOnTheWire | dante_packetizer.py:1192-1287 | for every shape, map, ring contents and ready pattern the completed frame is every word once and in order |
| FrameTheorem.FrameAsSent | dante_packetizer.py:1229-1235 | the bytes on the wire: all but the last two as specified, then the last one and a zero |
| FrameTheorem.FrameIntactIff | dante_packetizer.py:1229-1235 | the frame is as specified exactly when the last sample's two lower sent bytes are zero |
| WalkTheorem.DuesConserved | dante_packetizer.py:751-778 | in every run dues equal frames served plus pending plus merged, for each context |
| WalkTheorem.PendStep | dante_packetizer.py:770-778 | a due on the cycle of a serve is kept |
| WalkTheorem.WalkEnds | dante_packetizer.py:1124-1191 | a decreasing measure bounds the unstalled cycles of every walk |
| WalkTheorem.ServedWithin | dante_packetizer.py:780-802 | a pending configured context is served within twice the cycles its own and the other contexts' shapes cost, and one |
| WalkTheorem.NothingMerged | dante_packetizer.py:757-770 | dues that far apart, for the shapes bound, are never merged |
| WalkTheorem.FullMulticastFits | dante_packetizer.py:1288-1290 | six full flows at fpp 16 wait at most 6553 cycles, under seven strobe periods at the built clock |
| WalkTheorem.OrphanNeverCleared | dante_packetizer.py:1180-1187 | a context unbound with its due pending stays pending and is never served |
| SampleRing.Rings.WriteSample | dante_packetizer.py:464-482 | the write port stores the sample in its bundle's ring, or counts the drop |
| SampleRing.Rings.Clock | dante_packetizer.py:435-557 | one clock edge of rings, frame base, anchor and prime |
| SampleRing.ChannelPurity | dante_packetizer.py:444-482 | address a of ring k only ever holds channel 8k + a mod 8, whatever is dropped; pointers stay on frame boundaries |
| SampleRing.RingKeepsLastWrites | dante_packetizer.py:453-482 | a word not yet lapped is the last one stored there, across pointer wraps |
| SampleRing.Frozen | dante_packetizer.py:460-482 | an address behind the writer keeps its word until it is lapped |
| SampleRing.LookBackIff | dante_packetizer.py:1089-1092 | a look-back window is intact exactly when the level leaves fpp + 1 frames free |
| SampleRing.WriteClobbersIff | dante_packetizer.py:460-482 | a write let through overwrites a sample of the look-back window exactly when its frame starts fewer than fpp frames short of a turn ahead of the reader |
| SampleRing.HaveSpaceTooWide | dante_packetizer.py:465 | at level 2040 the gate stores the sample, on the newest cell of every table entry's window |
| SampleRing.LevelExactIff | dante_packetizer.py:375-379 | the level register is the fill exactly when both pointers are on the same turn |
| SampleRing.WrapUnprimes | dante_packetizer.py:511-557 | the edge after the write pointer wraps un-primes the ring |
| MediaPacer.Pacer.StepPhases | dante_packetizer.py:720-733 | the phase counters after one edge, a seed winning over counting |
| MediaPacer.Pacer.StepCounter | dante_packetizer.py:584-598 | the timestamp counter, a pending load adopted at a strobe |
| MediaPacer.Pacer.StepSnapshot | dante_packetizer.py:655-677 | a due strobe snapshots counter and read pointer |
| MediaPacer.Pacer.StepRead | dante_packetizer.py:617-645 | the read pointer advances per strobe while primed, otherwise an underrun is counted |
| MediaPacer.Pacer.Clock | dante_packetizer.py:560-754 | one clock edge of the pacer |
| MediaPacer.IndexCountsStrobes | dante_packetizer.py:584-598 | the sample index counts strobes across every wrap of the second |
| MediaPacer.PhaseCountsStrobes | dante_packetizer.py:720-733 | each phase counts strobes modulo its own fpp, power of two or not |
| MediaPacer.ResidueConstant | dante_packetizer.py:174-182 | a context's offset from the counter never changes, since its fpp divides 48000 |
| MediaPacer.TableDividesSecond | dante_packetizer.py:182 | every table entry divides 48000 |
| MediaPacer.DuesApart | dante_packetizer.py:743-754 | exactly fpp strobes pass between consecutive dues |
| MediaPacer.DuesAtLeast | dante_packetizer.py:743-754 | between any two dues of a context pass at least fpp |
| MediaPacer.StampIndex | dante_packetizer.py:829-841 | the borrow gives an in-range sub-second and the index of the window's first sample |
| MediaPacer.StampsStepByFpp | dante_packetizer.py:829-841 | with the offset register at zero, as the firmware leaves it, consecutive stamps are exactly fpp samples apart |
| MediaPacer.WindowsTile | dante_packetizer.py:1082-1090 | consecutive read windows meet end to start, across pointer wraps |
| MediaPacer.SnapshotHeld | dante_packetizer.py:655-677 | the snapshot stands until another context's due |
| MediaPacer.SnapshotIntactIff | dante_packetizer.py:655-677 | it still describes a due exactly when no later strobe found any context due |
| MediaPacer.SeedResidue | firmware/dante_tx.c:714-719 | a seed computed from a reading leaves the context off by the strobes up to its write |
| MediaPacer.BindSeeds | firmware/dante_tx.c:714-721 | reading, write and an equal second reading within a second: the context is aligned, up to the measured adjustment |
| SeedTheorem.BindAligns | firmware/dante_tx.c:712-722 | what the loop leaves: aligned unless its eighth try saw the counter move, and then exactly when fpp divides the strobes before its write |
| MediaPacer.AnchorSeeds | firmware/dante_tx.c:725-753 | the anchor path gives the same alignment exactly when fpp divides the strobes in between |
| MediaPacer.StampResidue | firmware/dante_tx.c:112-130 | stamps are multiples of fpp exactly when the context is aligned |
| MediaPacer.OffsetSafeIff | firmware/dante_tx.c:281-299 | stamps stay in range at every counter value exactly when the offset is below fpp |
| Packetizer.Core.Wires | dante_packetizer.py:1124-1149 | what rings, pacer and builder show each other, including the first block's read anchor |
| Packetizer.Core.Clock | dante_packetizer.py:435-1290 | one clock edge of the whole packetizer |
| StreamTheorem.NoCrosstalk | dante_packetizer.py:1089-1092 | in every run the ring cell addressed for a channel only ever holds that channel |
| StreamTheorem.FetchedCarries | dante_packetizer.py:1071-1098 | the word leaving the read pipeline is of the channel of the entry shown a cycle before, whatever is latched anew meanwhile |
| StreamTheorem.TakenCarries | dante_packetizer.py:1201-1221 | the word taken for a sample is of the channel the map gave its slot a cycle earlier |
| StreamTheorem.HeldCarries | dante_packetizer.py:1201-1221 | in every run the word cut into payload bytes is silence or was fetched for an earlier entry, of that entry's channel |
| StreamTheorem.SnapshotStands | dante_packetizer.py:655-677 | the registers a packet is built from are those its due latched |
| StreamTheorem.CellStands | dante_packetizer.py:1082-1092 | each window word stays the last one written while the level bound holds |
| StreamTheorem.HostToWire | dante_packetizer.py:1079-1287 | from a due to the completed frame: the header stamped by the due, each mapped slot the host's last word for that channel and sample, zeros elsewhere |
| SilenceTheorem.PrimesIff | dante_packetizer.py:509-511 | the reader positions at which the ring can ever prime |
| SilenceTheorem.WrapStrands | dante_packetizer.py:375-379 | a stream whose write pointer wraps, at any healthy level, is left un-primed with its reader near the top, and stranded if at most half a ring behind |
| SilenceTheorem.SilentWhileEnabled | dante_packetizer.py:509-557 | from there it never primes, never reads and underruns at every tick while enabled |
| SilenceTheorem.SilentUntilIff | dante_packetizer.py:509-557 | an enabled, un-primed talker stays so exactly until the level over its standing reader reaches half a ring |
| SilenceTheorem.SilentForFrames | dante_packetizer.py:435-482 | no sound before the writer has started frames enough to be half a ring above the reader |
| SilenceTheorem.SilentAfterWrap | dante_packetizer.py:375-379 | after the wrap, at any healthy level, silence for all but 129 frames of a turn of the write pointer |
| Reconfiguration.WordsTaken | dante_packetizer.py:1253-1287 | the word index counts the words taken, modulo 512; the frame completes when they meet the last index shown at that moment |
| Reconfiguration.WordsSent | dante_packetizer.py:1253-1262 | every word taken before that is of the same frame, none marked as its last |
| Reconfiguration.FrameLengthIff | dante_packetizer.py:1253-1287 | a frame has the words its context then calls for, or whole turns of 512 more, and none more exactly when the index has not gone round |
| Reconfiguration.NeverTooLongIff | dante_packetizer.py:1253-1287 | a frame in progress never exceeds what its context calls for exactly when the last index is never behind the word index |
| Reconfiguration.ShapeChanged | dante_packetizer.py:858-863 | the length of a frame whose context changes shape after w words, for every w and both cases |
| Reconfiguration.UnboundInStream | firmware/dante_tx.c:1161-1170 | a flow unbound past its thirteenth word is sent as one frame of 525 words |
| Reconfiguration.BuildLasts | dante_packetizer.py:1192-1240 | how long BUILD goes on after the length changes, once round the byte index if it is already past it |
| PacingTheorem.NoDueMerged | dante_packetizer.py:751-778 | on a ready sink a flow of fpp f merges no due if strobes are d cycles apart and f times d exceeds the longest wait of the shapes bound |
| PacingTheorem.ServoRateSpaced | firmware/mcr_dante.c:225-231 | every increment the servo writes keeps strobes 1041 cycles apart |
| PacingTheorem.SixFlowsLoseNothing | dante_packetizer.py:1288-1290 | six full flows at fpp 16 under any rates the servo writes merge no due in any run |
| DeliveryTheorem.BoundFlowDelivered | firmware/dante_tx.c:656-723 | a bound flow's packets go to its own address and port under a verifying header, and each slot carries the channel its receiver named, as the host last wrote it |
| TxArbiter.FirstValid | dante_packetizer.py:89-94 | the priority encoder gives the lowest valid source |
| TxArbiter.Arbiter.NextSel | dante_packetizer.py:89-94 | so does the loop from the highest index down |
| TxArbiter.Arbiter.Clock | dante_packetizer.py:77-104 | one clock edge of the arbiter |
| TxArbiter.SharesIntact | dante_packetizer.py:77-87 | each source's share of the output is exactly the beats it handed over |
| TxArbiter.FramesStayWhole | dante_packetizer.py:96-104 | no beat of another source falls inside a frame |
| TxArbiter.FirmwareWaits | dante_packetizer.py:57-65 | the firmware is granted as soon as the frame in flight ends |
| TxArbiter.AtMostOneFrameAhead | dante_packetizer.py:57-65 | while it offers, others get at most the rest of one frame |
| Checksum.NetChecksum | firmware/net.c:58-65 | the loop returns the complement of the folded word sum modulo 2^32, odd lengths included |
| Checksum.AccumulatorExactIff | firmware/net.c:60-63 | the wrapped sum folds to the same exactly when no carry is lost, or a multiple of 65535 of them and something remains |
| Checksum.InsertedChecksumVerifies | firmware/net.c:50-56 | a checksum over a zeroed field makes the block sum to all ones |
| Checksum.IpHeaderChecksum | firmware/dante_tx.c:88-106 | the per-flow checksum as the complement of the folded header terms |
| Checksum.TotalsAgree | firmware/dante_tx.c:660 | the firmware's total length is the gateware's, for every shape |
| Checksum.EmittedHeaderVerifies | dante_packetizer.py:903-914 | the twenty bytes emitted verify with the firmware's checksum, for every address and shape |
| Checksum.WrongLengthFails | firmware/dante_tx.c:131-134 | with any other length they do not |
| ContextBank.Bank.WriteMac | dante_packetizer.py:704-705 | dst_mac_lo latches the address of the selected context |
| ContextBank.Bank.WriteDport | dante_packetizer.py:698-703 | udp_dport latches destination, checksum and ports |
| ContextBank.Bank.WriteCfg | dante_packetizer.py:706-726 | flow_cfg latches shape, shared map and phase seed |
| FlowTable.FindFppIndex | firmware/dante_tx.c:151-156 | the index search, 0 if nothing matches |
| FlowTable.BuildMap | firmware/dante_tx.c:666-674 | the slot map of a channel list |
| FlowTable.EndingTry | firmware/dante_tx.c:712-722 | the phase loop ends at the first try during which the counter stood still, or the eighth |
| FlowTable.Table.WriteCtx | firmware/dante_tx.c:656-723 | the registers after write_ctx |
| FlowTable.First | firmware/dante_tx.c:813-821 | a table scan takes the first match |
| FlowTable.Oldest | firmware/dante_tx.c:836-850 | an eviction scan takes the oldest, ties to the higher index |
| FlowTable.Table.FindOldest | firmware/dante_tx.c:836-850 | and so does its loop |
| FlowTable.Table.TakeUnicast | firmware/dante_tx.c:812-855 | which context a request takes, and the victim it frees |
| FlowTable.Table.BindUnicast | firmware/dante_tx.c:775-877 | table and registers after a unicast bind, or -1 and nothing changed |
| FlowTable.Table.BindMulticast | firmware/dante_tx.c:974-1043 | table and registers after a multicast bind, or -1 and nothing changed |
| FlowTable.Table.Unbind | firmware/dante_tx.c:1161-1170 | the context off and the flow free, if it was in use |
| FlowTable.Table.DropAll | firmware/dante_tx.c:1151-1157 | every flow unbound |
| FlowTable.Table.Reseed | firmware/dante_tx.c:725-754 | every bound context reseeded, its map relatched |
| FlowTable.Table.CtxForId | firmware/dante_tx.c:1046-1051 | the first flow in use with that id, or -1 |
| FlowRefinement.TableRefined | firmware/dante_tx.c:656-877 | in every run a context is on iff its flow is in use, with its address, port, MAC, shape and checksum |
| FlowRefinement.MapsHeldUntilAnchor | firmware/dante_tx.c:666-674 | until a re-anchor contexts carry the maps their flows asked for |
| FlowRefinement.MapsAfterAnchorIff | firmware/dante_tx.c:725-753 | after one, exactly when every bound flow's map is the one written last |
| FlowRefinement.TwoReceiversMixed | firmware/dante_tx.c:725-753 | two receivers and one re-anchor mix channels |
| FlowRefinement.DropEmpties | firmware/dante_tx.c:1151-1157 | dropping all leaves nothing bound |
| FlowRefinement.SocketsUniqueIff | firmware/dante_tx.c:813-818 | a bind keeps receiver sockets unique exactly unless it hijacks a multicast context |
| FlowRefinement.BundleHijacked | firmware/dante_tx.c:813-818 | a reachable run: a bundle keeps a former peer, that peer's repeated request takes it, and its socket has two contexts |
| FlowRefinement.SocketsUniqueThroughout | firmware/dante_tx.c:790-821 | over every run in which receivers ask for their own addresses, no socket has two contexts |
| FlowRefinement.IdsUniqueThroughout | firmware/dante_tx.c:974-990 | over every run no multicast id has two contexts |
| FlowRefinement.CtxForIdIff | firmware/dante_tx.c:1045-1051 | the id lookup finds the multicast flow exactly when no earlier unicast flow kept that id |
| FlowRefinement.WrongFlowDeleted | firmware/dante_tx.c:1045-1051 | a reachable state in which it finds a unicast flow |
| FlowRefinement.KeepaliveStable | firmware/dante_tx.c:790-818 | a repeated request takes its own context again and leaves every context as it was |
| FlowRefinement.EvictsStalest | firmware/dante_tx.c:822-850 | a multicast flow is evicted only if all six are, and the victim is the longest without a keepalive |
| FlowRefinement.McastEvictsStalestIff | firmware/dante_tx.c:990-1013 | the multicast victim is the stalest flow exactly when no flow past the hour stands before a younger one also past it |
| FlowRefinement.StalestSpared | firmware/dante_tx.c:990-1013 | a reachable table in which a flow one hour old is evicted and one two hours old spared |
| FlowRefinement.BoundFlowFrames | firmware/dante_tx.c:656-695 | a bound context is one the builder can frame, unless fpp 2 with odd slots, and its emitted header verifies |
| Seqlock.ReadEmitted | firmware/dante_tx.c:1224-1238 | four tries; an agreeing one returns a pair held together, four failures mean four seconds passed |
| Seqlock.AgreementSoundIff | firmware/dante_tx.c:1224-1238 | every agreeing try of every read, at any access cycles, is a pair held together if and only if the emitted seconds never return to a value they have left |
| Seqlock.AgreementAgainstGateware | dante_packetizer.py:1139-1149 | against the packetizer between re-anchors, at any access cycles, an agreeing read is a stamp really emitted |
| Seqlock.GoingBackFools | firmware/dante_tx.c:1224-1238 | a reader that meets three stamps, the first and third of one second, agrees on a pair held at none of its accesses, unless the sub-seconds coincide |
| Seqlock.ReanchorGoesBack | dante_packetizer.py:584-598 | two emissions, a load back to the first one's second and a third emission give such stamps: the seconds do return |
| Nco.Nco.Clock | avb_soc.py:306-318 | one clock edge of the oscillator |
| Nco.PhaseConserved | avb_soc.py:311-315 | every 2^32 of phase put in is one strobe, whatever is written to the increment |
| Nco.CountCountsStrobes | avb_soc.py:316-320 | the sample counter counts strobes |
| Nco.StrobesExact | avb_soc.py:306-318 | strobes in n cycles in closed form, fraction included |
| Nco.WindowsNearlyEqual | avb_soc.py:275-291 | equally long windows differ by at most one strobe |
| Nco.StrobesSpaced | avb_soc.py:306-318 | if no increment exceeds 2^32 / d, a carry included, any two strobes are d cycles apart, however it moves |
| Nco.MeanRate | avb_soc.py:291-293 | the mean rate is the increment plus frac/256, to within two strobes over any length |
| RateServo.MediaClock.SetEnabled | firmware/mcr_dante.c:296-323 | arming writes the applied rate, disarming the nominal one at once |
| RateServo.MediaClock.LevelSample | firmware/mcr_dante.c:288-294 | minimum, maximum, sum and count of the window after one more reading, at their widths |
| RateServo.BootGood | firmware/mcr_dante.c:234-285 | boot establishes the invariant, warm or cold |
| RateServo.MediaClock.CheckGuard | firmware/mcr_dante.c:325-407 | the window closed; underrun rate, streak and trip of a poll |
| RateServo.MediaClock.StepPll | firmware/mcr_dante.c:416-480 | setpoint, outlier rejection, integral and clamps |
| RateServo.MediaClock.Slew | firmware/mcr_dante.c:507-539 | one slew step, the register write and the saved rate |
| RateServo.MediaClock.Poll | firmware/mcr_dante.c:325-539 | a whole poll |
| RateServo.BaseNearest | firmware/mcr_dante.c:239-242 | the nominal increment is the nearest integer |
| RateServo.RegisterTracksRate | firmware/mcr_dante.c:491-518 | in every run the NCO register is inc_for_ppb of the applied rate and every clamp holds |
| RateServo.PollSlewLimited | firmware/mcr_dante.c:20-27 | a poll moves the rate at most 100 ppb and the register at most one unit |
| RateServo.UnlockedHolds | firmware/mcr_dante.c:485-489 | an unlocked poll changes nothing of the clock, short of a trip |
| RateServo.ReachedExactly | firmware/mcr_dante.c:507-512 | a constant target is reached in exactly the ceiling of a hundredth of the distance |
| RateServo.TripNeedsPersistence | firmware/mcr_dante.c:388-397 | a trip takes 45 consecutive bad polls |
| RateServo.TripReverts | firmware/mcr_dante.c:397-406 | a trip restores the nominal rate and disarms |
| RateServo.SavedRate | firmware/mcr_dante.c:520-538 | only a converged, armed, locked poll saves, rarely, and only a real change |
| RateServo.BootResumesIff | firmware/mcr_dante.c:254-285 | the next boot resumes at the saved rate exactly when it is inside the clamp |
| RateServo.ClampSavedThenIgnored | firmware/mcr_dante.c:254-285 | a cold boot and a thousand polls save the clamp itself, which the next boot ignores |
| RxGate.Gate.Clock | rx_gate.py:189-295 | one clock edge of the gate |
| RxGate.DiscardedIff | rx_gate.py:189-274 | a frame is discarded iff armed, five beats or more, and its own destination not allowed |
| RxGate.CountersExact | rx_gate.py:276-295 | the counters count exactly the frames allowed, not allowed and dropped |
| RxGate.CountsAddUp | rx_gate.py:279-295 | matches and non-matches add up to the frames classified |
| RxGate.SupersetIff | rx_gate.py:87-94 | of the groups the software keeps the gate allows all but unprogrammed FF:FF:FF ones that are not broadcast |
| RxGate.LinkLocalRuleWide | rx_gate.py:101-104 | the link-local rule passes all of 01:00:5E:00, of which the software keeps a part |
| RxGate.UnicastNarrowed | rx_gate.py:123-128 | an armed gate allows only programmed unicast addresses |
| RxTimestamps.TimestampRing.Commit | avb_soc.py:566-578 | a commit pushes the frame's timestamp or counts an overflow |
| RxTimestamps.TimestampRing.Pop | avb_soc.py:643-658 | a pop moves the oldest entry to the pop register |
| RxTimestamps.AlignedForEver | firmware/main.c:182-253 | once aligned, under every interleaving each popped timestamp is the dispatched frame's, with no overflow and no resync |
| RxTimestamps.BacklogNeverGrows | firmware/main.c:142-150 | from a misaligned state staleness never grows |
| RxTimestamps.ResyncLeaves | firmware/main.c:132-163 | from every surplus a resync leaves two minus the frames pending, or what there was, less the commits lost to a full ring |
| RxTimestamps.PopIsStale | firmware/main.c:252-253 | with a backlog of k a frame gets the timestamp of the frame k before it |
| RxTimestamps.BacklogStays | firmware/main.c:142-150 | a dispatcher that never sees three entries keeps its backlog for ever, but for commits lost to a full ring |
| ArcPaging.Message.Str | firmware/dante_msg.c:49-55 | a string is appended with its terminator and its absolute offset returned |
| ArcPaging.Message.Finish | firmware/dante_msg.c:57-68 | length and code patched, nothing else changed |
| ArcPaging.AddChannel | firmware/dante_arc.c:515-529 | one more channel on the page |
| ArcPaging.Page | firmware/dante_arc.c:506-560 | a whole reply, for either layout, within one datagram |
| ArcPaging.ReplyDecodes | firmware/dante_arc.c:200-214 | decoding through the absolute offsets gives back exactly the channels written |
| ArcPaging.CommonShared | firmware/dante_arc.c:181-198 | every channel item points at the one common descriptor |
| ArcPaging.EveryChannelOnce | firmware/dante_arc.c:210-213 | a client following the code hears every channel once, in order, in nonempty pages |
| ArcPaging.SessionLength | firmware/dante_arc.c:210-213 | from channel 1 it takes two pages |
| ArcPaging.NamesDistinct | firmware/dante_dev.c:100-109 | the decimal names tell channels apart |
| Net.ArpCache.Learn | firmware/net.c:147-162 | the cache after learning |
| Net.ArpCache.Lookup | firmware/net.c:187-201 | group and broadcast addresses computed, others looked up |
| Net.LearnThenResolve | firmware/net.c:143-162 | what is learned is found, and at most the replaced entry is lost |
| Net.CacheSound | firmware/net.c:147-162 | in every run no address has two entries and no group address has one |
| Datagram.PortTable.Bind | firmware/net.c:313-324 | the table after a bind, or false |
| Datagram.BindServes | firmware/net.c:313-324 | a bind fails exactly when the port is new and the table full, else serves that port and no other changes |
| Datagram.Sender.Commit | firmware/net.c:332-371 | the slot after a commit: headers in front of the payload, and the padded length |
| Datagram.BuiltHeaderVerifies | firmware/net.c:344-356 | the header of every datagram built verifies |
| Datagram.Receiver.RxFrame | firmware/net.c:448-504 | what becomes of a frame, and whether its sender is learned |
| Datagram.UdpRoundTrip | firmware/net.c:332-504 | the bound handler gets the same addresses, port and payload, whatever the padding holds |
| Datagram.UdpElsewhere | firmware/net.c:435-446 | a datagram for someone else or an unbound port reaches no handler |
| Datagram.TruncatedNotDelivered | firmware/net.c:462-467 | a truncated datagram is never delivered |
| ConfigStore.Flash.Erase4k | firmware/cfgflash.c:101-108 | the sector goes to ones, the rest stays |
| ConfigStore.Flash.Program | firmware/cfgflash.c:110-126 | programmed cells are anded, the rest stays |
| ConfigStore.ProgramOnlyClears | firmware/cfgflash.c:110-126 | each bit of a programmed cell is set exactly if it was set and is set in the byte programmed |
| ConfigStore.BlankRejected | firmware/config.c:37-49 | a blank sector gives the defaults |
| ConfigStore.Store.Checksum | firmware/config.c:7-15 | the rolling checksum loop |
| ConfigStore.Store.Save | firmware/config.c:52-60 | the record stamped and the flash holding exactly it |
| ConfigStore.Store.Load | firmware/config.c:30-50 | the stored record if accepted, its address repaired, else the defaults |
| ConfigStore.OneByteChangesCrc | firmware/config.c:7-15 | a change of one byte always changes the checksum |
| ConfigStore.TwoBytesEscapeIff | firmware/config.c:7-15 | a change of two bytes leaves it exactly when their differences, the earlier weighted by 31 to their distance, cancel modulo 2^32 |
| ConfigStore.NeighboursEscapeIff | firmware/config.c:7-15 | adjacent ones exactly when 31 times the first difference and the second cancel |
| ConfigStore.SaveThenLoadIff | firmware/config.c:30-60 | the boot after a save finds the very configuration exactly when its prefix is known |
| ConfigStore.OneByteDamageRejected | firmware/config.c:37-49 | damage to any one stored byte falls back to the defaults |

## Left out

- The 36-bit packing of ring words around RAM parity bits (dante_packetizer.py:471-475): a wire permutation undone on reading.
- A sample written and read at the same ring address in one cycle: the read port is taken to return the word before the write.
- A CSR write and the latch it triggers are one step; the bus between CPU and gateware is not modelled.
- LiteEth, the TSU and the USB bridge: their stream handshakes, two receive slots and strobes are inputs.
- Console and statistics commands, telemetry and captures: diagnostics; the console can also take the oscillator away from the servo.
- The talker gate, latency auto-raise and flow expiry: independent conditions without a shared invariant.
- PTP: its lock, rate and time are inputs of the servo.
- `RateServo.MediaClock.StepPll`: the phase error is subtracted exactly; in C it is a signed 32-bit subtraction whose overflow is undefined.
- `RateServo.MediaClock.Poll`: rate and phase term are added exactly; in C it is a signed 32-bit addition whose overflow is undefined.
- `RateServo.MediaClock.Slew`: the flash write of a saved rate is the record's, in ConfigStore, and is not joined to it here.
- The block level reported to the USB feedback, and the builder's count of dues that find it busy (dante_packetizer.py:1290): reported only.
- `RxTimestamps`: the dispatch loop is a set of steps rather than a method, so that commits can fall between any two of its register accesses; what is done with a dispatched frame is not modelled.
- `Datagram.Receiver.RxFrame`: a total length below the header length is reported as Underflow and not followed further; ARP, ICMP and IGMP bodies are not modelled.
- `Net.ArpCache.Lookup`: the ARP request and the miss count of an unknown address are not modelled.
- `Datagram.Sender.Commit`: the ARP request of a cache miss, the rotation of transmit slots and the transmit counters are not modelled.
- `RxTimestamps.PopIsStale`: for a ring that holds the latest entries of the log, that is, as long as no commit has been lost to a full ring; after a loss the entries' ages differ.
- The receive-channel, flow and device-information replies of dante_arc.c: the same page layout, or fixed bytes.
- AVB receive paths, aaf_packetizer.py and mcr.c: superseded.
