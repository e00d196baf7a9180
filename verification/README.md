# Verification of the NASDAQ HFT pipeline

A Dafny 4.11 model of the three parts of the repository that carry its meaning, with
proofs about all inputs and all runs. `dafny verify dfyconfig.toml` checks everything.

## What is modelled

**The streaming receiver (SystemVerilog).** `dispatch` and `moldudp64` (with `header` and
`endian_flip`) take one eight-byte AXI-stream beat per clock and cut a MoldUDP64 packet into
messages, the length field lying at any of eight alignments. Every wire is a function with the
widths of the instance in `moldudp64parser.v`; the registers are class fields that `Clock` and
`Reset` update (`Dispatch.dfy`, `Receiver.dfy`). The reference is the packet format itself, a
20-byte header and length-prefixed blocks, as an encoder and a recursive parser that are proved
inverse to each other (`MoldFormat.dfy`; the "Downstream Packet" section of the MoldUDP64
Protocol Specification). `DispatchSteps.dfy` proves one beat by alignment, `PacketProof.dfy` all
beats of a packet, `Straddle.dfy` the beats on which a length is taken from a mux that selects
nothing, `Headers.dfy` the three header beats, `Unready.dfy` a packet that comes too early,
`Packets.dfy` the results about packets, `Spoiling.dfy` what a packet that fails leaves behind,
`ReceiverRuns.dfy` runs of packets from reset, and `Witnesses.dfy` packets on each side of every condition. `Delivery.dfy` says how the two output
pipes are read: a start flag or an overlap chunk opens a message, any other valid beat continues
the open one.

**The C test bench that feeds it.** The packet builder (`Encoder.dfy`), the beat splitter
(`Axis.dfy`), the pointer-linked scoreboard queue (`Slist.dfy`) and the driver (`TestBench.dfy`),
all in place, up to the end-to-end result: messages, flat packet, beats, receiver, and the same
messages back with the debug ids that the scoreboard holds.

**The kernel and its descriptor rings.** The decision from packet to order (`Book.dfy`), the
packet generator (`Generator.dfy`), the kernel's routines and the NIC's receive routine in place
(`KernelCode.dfy`), and a machine in which the kernel, the receiving NIC and the transmitting NIC
take one memory or register access at a time in any order (`Rings.dfy`, `RingsProof.dfy`).
`RingRuns.dfy` puts undisturbed passes together: the routines in place are runs of the machine, and
the bound on the sender is exact. `RingsLive.dfy` proves that kernel and NIC can always come to rest.

## Where the code differs from what is said about it

- `dispatch.v:153` says that it works for messages of seven bytes and more. `Packets.DeliversPacket`
  proves for which packets a receiver that is ready delivers them, and that it does for no others.
  Two things can go wrong:
  - The last message starts on the last beat, where `start_o` is masked (`dispatch.v:206`), as with
    messages of 8 and 7 bytes (`Witnesses.LastStartFails`).
  - A seven-byte message has its length field across two beats. Its end is signalled one beat late,
    and the next length is taken while the length mux selects nothing (`dispatch.v:135-139`), so
    that `len_shifted` still holds the length field it selected last. If the seven-byte message is
    the last, it is lost. Otherwise that held length has to be the next one, as it is for messages of
    11, 12, 7 and 12 bytes and is not for 11, 12, 7 and 13 (`Witnesses.StraddledPasses`,
    `Witnesses.StraddledFails`); or the next message has to be the last, to fill its last beat, and to
    be taken to be longer than it is (`Witnesses.OverrunPasses`). `DispatchSteps.Kept` follows the
    held length through the packet, and `Headers.HeldBehindHeader` is its value behind the header.
- Behind a packet whose held lengths suffice, as they do for every one that is delivered, the
  receiver is ready for another one, and the assertion that the dispatch state is one-hot
  (`dispatch.v:250`) holds, if and only if the packet's length modulo eight is 1 to 6 or its last
  message was taken to be longer than it is (`Packets.LeavesCleanIdle`, `Packets.LeavesOneHot`).
  Otherwise a packet that follows is never delivered (`Unready.BusyMisdelivers`), unless `tlast` is
  high on an idle clock behind the first one (`ReceiverRuns.BurstRun`). This is the back-to-back
  fault noted at `Nasdaq-HFT-FPGA-master/tb/hft_tb.v:322`, and why the three clocks that the bench
  waits there, with `tlast` still high, cure it (`TestBench.Simulate`).
- The message counter is not always cleared by reset, because its enable is a statement of its own
  behind the reset (`moldudp64parser.v:197-203`); `ReceiverRuns.ResetClearsCount` says exactly when
  it is. No packet depends on it: one reset clock, with any input and from any registers, makes the
  receiver ready (`ReceiverRuns.DeliversFromReset`).
- `slisth_unpull` breaks a queue exactly when it is empty (`Slist.Head.Unpull`).
- `axis_msg_finished` is never true of an empty buffer (`Axis.FinishedMeaning`).
- The NIC does not look at DD before it writes. The sender has to keep at most sixteen packets
  waiting for a decision; a slot may be written again as soon as the kernel has decided on its
  packet. `RingRuns.PacingIsExact` proves that the bound is exact: with a larger one there is a run
  in which the kernel's first decision is on the wrong packet.
- The transmit tail register is zero before and after the first order, so that head and tail tell a
  NIC how many orders wait only once there has been one (`RingsProof.TailTellsWaiting`).

## Model

| member | source | states |
|---|---|---|
| MoldFormat.ParseIffEncode | Nasdaq-HFT-FPGA-master/tb/vpi/moldudp64.c:129-190 | A byte string parses to a packet exactly when it is that packet's encoding and every field fits. |
| MoldFormat.EncodeInjective | Nasdaq-HFT-FPGA-master/tb/vpi/moldudp64.c:129-190 | No two packets of the format have the same bytes. |
| MoldFormat.BlocksLength | Nasdaq-HFT-FPGA-master/tb/vpi/moldudp64.c:89-97 | The blocks take two bytes a message and the messages' own bytes. |
| Dispatch.DispatchModule.Reset | nic/verilog/dispatch.v:112-118 | A clock edge in reset: length and state are cleared; the two registers without reset follow their inputs, and the length mux selects or holds. |
| Dispatch.DispatchModule.Clock | nic/verilog/dispatch.v:60-241 | One clock in place gives the outputs, the register values and the value that the length mux holds, by the gate functions about which the lemmas below speak. |
| Dispatch.OrBit | nic/verilog/dispatch.v:102-106 | The lengths under their enables are put together bit by bit. |
| DispatchSteps.WiresEnd | nic/verilog/dispatch.v:62-89 | With 0 to 8 bytes left of a message: the end is seen, an overlap is seen exactly up to 5 bytes left, and its length is 6 minus those. |
| DispatchSteps.GatesLong | nic/verilog/dispatch.v:100-117 | With more than eight bytes left, a beat takes eight off and stays in the message. |
| DispatchSteps.GatesEndOverlap | nic/verilog/dispatch.v:102-111 | The length field inside the beat, or the held one when no byte is left, is loaded less the bytes already shown on the overlap pipe. |
| DispatchSteps.GatesEndField | nic/verilog/dispatch.v:103-103 | A length field in the last two bytes is loaded unchanged, and the next beat starts a message. |
| DispatchSteps.GatesEndShort | nic/verilog/dispatch.v:226-227 | With 7 or 8 bytes left the split or align state follows, and in the split case the half of the length is kept. |
| DispatchSteps.GatesAlign | nic/verilog/dispatch.v:105-105 | A beat that starts with a length field shows six bytes of a new message and leaves the others. |
| DispatchSteps.GatesSplit | nic/verilog/dispatch.v:106-106 | A beat that starts with the second half of a length field shows seven bytes and leaves the others. |
| DispatchSteps.GatesBodyOutputs | nic/verilog/dispatch.v:154-217 | Outputs while a message is open: bytes, length, start, end and overlap as functions of the bytes left. |
| DispatchSteps.GatesLast | nic/verilog/dispatch.v:219-227 | The state after the last beat: invalid, and additionally align or split when 8 or 7 bytes came. |
| DispatchSteps.GatesLastAny | nic/verilog/dispatch.v:219-241 | Behind a last beat in any state no message is open and the state machine waits; align or split stand beside that exactly when eight or seven bytes of a message were open. |
| DispatchSteps.GatesQuiet | nic/verilog/dispatch.v:100-117 | A clock without input, in any state: nothing is shown, but the length register counts down and the state moves on, so that a gap inside a packet loses eight bytes. |
| DispatchSteps.GatesHeld | nic/verilog/dispatch.v:128-139 | The length mux selects the two bytes behind 1 to 6 unread bytes, modulo 16, and otherwise holds its value. |
| DispatchSteps.StepHeld | nic/verilog/dispatch.v:128-139 | The held length is the last length field that began with the second to seventh byte of a beat, whatever was selected inside messages. |
| DispatchSteps.AdvanceTrusts | nic/verilog/dispatch.v:131-141 | Whether the held length will be right wherever it is taken does not change from beat to beat. |
| DispatchSteps.UnstraddledKept | nic/verilog/dispatch.v:131-141 | Without a straddled seven-byte message the held length does not matter. |
| DispatchSteps.AdvanceReads | nic/verilog/dispatch.v:79-111 | The position in the stream moves by exactly eight bytes a beat, at every alignment. |
| DispatchSteps.StepMatches | nic/verilog/dispatch.v:100-146 | The registers follow the position in the stream: bytes left in a message, at a length field, or inside one with its first byte held; where a length is taken from the held one, if that is right. |
| DispatchSteps.StepShows | nic/verilog/dispatch.v:149-217 | The outputs of a beat are the message bytes that lie in it, on the pipe and with the flags that the position calls for, the last beat included. |
| DispatchSteps.StepNoWrap | nic/verilog/dispatch.v:102-111 | No 16-bit subtraction that is used goes below zero. |
| DispatchSteps.LastBeatIsBody | nic/verilog/dispatch.v:217-227 | The last beat holds the rest of the last message and nothing else. |
| Receiver.MoldUdp64.Clock | nic/verilog/moldudp64parser.v:154-318 | One clock in place of header fields, sequence number, counter and state machine around the dispatch module. |
| Receiver.MoldUdp64.Reset | nic/verilog/moldudp64parser.v:197-203 | A clock edge in reset: the state is cleared; the counter keeps its enabled value, and the ids, which have no reset, change on header beats and message ends only. |
| Headers.FlippedValue | nic/verilog/endian_flip.v:15-20 | Reversing the bytes of a vector gives the big-endian value of the bytes on the wire. |
| Headers.HeaderValues | nic/verilog/header.v:36-67 | The pieces taken from the three header beats put together are the packet's session id, sequence number and count. |
| Headers.HeaderSteps | nic/verilog/moldudp64parser.v:136-203 | Three header beats from clean idle load the packet's ids, count and first length, whatever counter and ids held, and show its first two bytes under its first id. |
| Headers.HeaderSearch | nic/verilog/moldudp64parser.v:280-308 | The next beat with input is taken for the first of a packet if and only if it is behind tlast, behind a message beat on which the count was already used up, or behind a clock without input while the receiver waits. |
| Headers.OuterStep | nic/verilog/moldudp64parser.v:288-308 | From each state of the machine around the dispatch module, with any registers and input: whether exactly one state is active after a clock. |
| Headers.IdleStep | nic/verilog/moldudp64parser.v:288-295 | A clock without input shows nothing, keeps the state between packets, and keeps clean idle. |
| PacketProof.StepControl | nic/verilog/moldudp64parser.v:187-203 | On a message beat the sequence number goes up and the counter down by the messages that end, at most one. |
| PacketProof.StepLive | nic/verilog/moldudp64parser.v:160-308 | A beat that is not the last keeps the invariant: registers, sequence number and counter agree with what is unread. |
| PacketProof.StepEnded | nic/verilog/moldudp64parser.v:280-308 | The last beat ends the message count and leaves both state machines waiting. |
| Straddle.MisreadRun | nic/verilog/dispatch.v:110-117 | A message that is taken to have n bytes left gets n bytes, and more only under a second id, or all bytes of all beats when the packet is over before. |
| Straddle.SpentExact | nic/verilog/dispatch.v:131-141 | A wrong held length leads to a wrong delivery, except where the message is the last, fills its last beat and is taken to be longer. |
| Straddle.DrainDelivers | nic/verilog/dispatch.v:60-241 | From any position in a packet, the rest of it is delivered exactly if and only if the held length suffices and the last message does not start on the last beat. |
| PacketProof.StraddleBreaks | nic/verilog/dispatch.v:153-157 | With a straddled seven-byte message ahead, the register invariant fails before the packet ends. |
| Unready.BusyMisdelivers | nic/verilog/dispatch.v:154-175 | A packet that comes while the dispatch state machine is not waiting has its first message delivered too long. |
| Packets.DeliversPacket | nic/verilog/dispatch.v:60-241 | Between packets, over every sequence of beats that carries a packet of messages of seven bytes or more: exactly its messages, in order, each with its id, if and only if the receiver was ready, the held length suffices wherever it is taken, and the last message does not start on the last beat. |
| Packets.DeliversUnstraddled | nic/verilog/dispatch.v:195-206 | Without a straddled seven-byte message, if and only if the receiver was ready and the last message does not start on the last beat. |
| Packets.RefinesParser | nic/verilog/dispatch.v:60-241 | The same against the recursive parser, for any bytes that parse to a data packet of messages of seven bytes or more: what is delivered is what the parser reads, under exactly that condition. |
| Packets.HeldFromReset | nic/verilog/dispatch.v:110-139 | Once the length register has counted down, header beats leave the held length alone. |
| Witnesses.StraddledFails | nic/verilog/dispatch.v:131-141 | Messages of 11, 12, 7 and 13 bytes are never delivered, whatever the registers held. |
| Witnesses.StraddledPasses | nic/verilog/dispatch.v:131-141 | Messages of 11, 12, 7 and 12 bytes are straddled and always delivered. |
| Witnesses.HeldFromBefore | nic/verilog/dispatch.v:131-141 | Messages of 9, 7 and 10 bytes are delivered exactly when the mux holds a 10 from before the packet. |
| Witnesses.OverrunPasses | nic/verilog/dispatch.v:131-141 | Messages of 9, 7 and 14 bytes, 56 in all, are delivered with a wrong length of 100 held, and leave the receiver ready and one-hot. |
| Witnesses.LastStartFails | nic/verilog/dispatch.v:206-206 | Messages of 8 and 7 bytes are not delivered. |
| Witnesses.NotReadyBehind | nic/verilog/dispatch.v:226-227 | Packets of 55 and 56 bytes are delivered and leave the receiver not ready. |
| Witnesses.BackToBack | Nasdaq-HFT-FPGA-master/tb/hft_tb.v:321-328 | Two packets of 56 bytes are both delivered if and only if the gap between them has tlast high on a clock behind its first. |
| Packets.TaggedAt | nic/verilog/moldudp64parser.v:162-177 | Message k of a delivery carries the header's sequence number plus k modulo 2^64, and no other id. |
| Packets.RegistersOnEveryBeat | nic/verilog/dispatch.v:100-146 | On beat k behind the header the length register is the number of unread bytes of the open message, or the next length field starts here or one byte earlier with that byte held; what is unread is the packet from byte 24 + 8k on, and count and sequence number agree with it. |
| Packets.InvariantOfPacket | nic/verilog/dispatch.v:100-146 | On all beats behind the header: one active state, lengths in range, no wrap-around, and a counter that reaches 0 on the last beat and not before; if and only if no seven-byte message is straddled. |
| Packets.BytesOfPacket | nic/verilog/dispatch.v:195-215 | The lengths shown on both pipes add up to the packet length less 20 less two a message, whenever the held length suffices. |
| Packets.PacketEnds | nic/verilog/moldudp64parser.v:160-203 | Behind a packet the sequence number has advanced by its messages and the counter is 0; when the last message was taken to be longer, both lack one and the packet is a whole number of beats. |
| Packets.LeavesCleanIdle | nic/verilog/dispatch.v:219-241 | A packet leaves the receiver ready for another if and only if its last beat brought one to six bytes or its last message was taken to be longer than it is. |
| Packets.LeavesOneHot | nic/verilog/dispatch.v:250-250 | The one-hot assertion on the dispatch state holds behind a packet in exactly those cases. |
| Packets.OuterOnEveryBeat | nic/verilog/moldudp64parser.v:357-357 | The one-hot assertion on that machine holds on every beat of every packet, and behind every packet whose held length suffices. |
| ReceiverRuns.GapRestores | nic/verilog/dispatch.v:221-227 | Behind a packet whose last beat brought seven or eight bytes, idle clocks make the receiver ready if and only if tlast is high on one behind the first. |
| Spoiling.PacketSpoils | nic/verilog/dispatch.v:60-241 | A packet that does not arrive leaves a record that is too long, has an id too many, or is closed with another length. |
| ReceiverRuns.BurstRun | nic/verilog/dispatch.v:219-241 | Behind a packet that arrives and its gap, the receiver is ready if and only if the last beat brought one to six bytes, the gap restores it, or the last message was taken to be longer. |
| ReceiverRuns.DeliversRun | nic/verilog/moldudp64parser.v:280-308 | Any number of packets of messages of seven bytes or more, with any idle clocks between them: what is delivered is exactly all their messages in order if and only if each packet arrives in the state that it finds. |
| ReceiverRuns.DeliversRestored | nic/verilog/moldudp64parser.v:280-308 | For packets without straddled messages and masked starts: if and only if every packet but the last is of 1 to 6 bytes modulo eight or is followed by a gap that restores the receiver. |
| ReceiverRuns.RunLeavesReady | nic/verilog/moldudp64parser.v:280-308 | Behind a run in which all packets arrive, the receiver is ready if and only if the last one leaves it so. |
| ReceiverRuns.OneReset | nic/verilog/moldudp64parser.v:296-302 | One reset clock, from any registers and with any input, makes the receiver ready. |
| ReceiverRuns.ResetReachesIdle | nic/verilog/moldudp64parser.v:296-302 | So does any number of them, and the length register is cleared. |
| ReceiverRuns.ResetClearsCount | nic/verilog/moldudp64parser.v:187-203 | From any register values and with any input, reset clears the message counter if and only if the clocks behind the first are as many as the count that it leaves, or one of them is without input. |
| ReceiverRuns.DeliversFromReset | nic/verilog/moldudp64parser.v:280-308 | From any power-up values, any reset and a run of packets: exactly the packets' messages, under exactly those conditions. |
| Encoder.Mold.constructor | Nasdaq-HFT-FPGA-master/tb/vpi/moldudp64.c:195-198 | An empty packet with the ids given. |
| Encoder.Mold.AddMsg | Nasdaq-HFT-FPGA-master/tb/vpi/moldudp64.c:24-47 | The message is added behind the others; ids stay. |
| Encoder.Mold.Clear | Nasdaq-HFT-FPGA-master/tb/vpi/moldudp64.c:49-59 | The packet is empty and the sequence number has advanced by what was in it. |
| Encoder.Mold.SwapSid | Nasdaq-HFT-FPGA-master/tb/vpi/moldudp64.c:104-108 | The pairwise swap reverses the session id. |
| Encoder.Mold.FlatSize | Nasdaq-HFT-FPGA-master/tb/vpi/moldudp64.c:87-97 | The size that is allocated is the length of the packet's encoding. |
| Encoder.Mold.WriteHeader | Nasdaq-HFT-FPGA-master/tb/vpi/moldudp64.c:129-139 | The first 20 bytes are the header of the format. |
| Encoder.WriteBlock | Nasdaq-HFT-FPGA-master/tb/vpi/moldudp64.c:146-164 | A message is written as a block behind what is there. |
| Encoder.Mold.Flatten | Nasdaq-HFT-FPGA-master/tb/vpi/moldudp64.c:65-193 | The buffer is exactly the encoding of the packet that the structure stands for. |
| Encoder.DebugIdValue | Nasdaq-HFT-FPGA-master/tb/vpi/moldudp64.c:230-236 | The 18 bytes of a debug id are, as a number, the receiver's { sid, seq } for that message. |
| Axis.FinishedMeaning | Nasdaq-HFT-FPGA-master/tb/vpi/axis.h:21-28 | Finished means read to the end, except that an empty buffer is never finished. |
| Axis.AxisGetNext64b | Nasdaq-HFT-FPGA-master/tb/vpi/axis.c:11-45 | The lane holds the next bytes of the buffer, zeros behind them, and the mask marks exactly those bytes. |
| Axis.FramedExact | Nasdaq-HFT-FPGA-master/tb/vpi/axis.c:11-45 | Framing gives ceil(n / 8) beats, all masks full except that of the last, last marked on exactly that one, and the kept bytes are the packet. |
| Slist.Head.constructor | Nasdaq-HFT-FPGA-master/tb/vpi/tb_itch.h:148-154 | An empty queue. |
| Slist.Head.Push | Nasdaq-HFT-FPGA-master/tb/vpi/tb_itch.h:159-170 | The node is last in an acyclic chain of exactly the nodes not pulled. |
| Slist.Head.Pull | Nasdaq-HFT-FPGA-master/tb/vpi/tb_itch.h:177-188 | The oldest node leaves the chain unlinked; an empty queue gives null. |
| Slist.Head.Unpull | Nasdaq-HFT-FPGA-master/tb/vpi/tb_itch.h:195-205 | The node comes first, the write pointer stays, and the queue is sound afterwards if and only if it was not empty. |
| Slist.Head.FifoPush | Nasdaq-HFT-FPGA-master/tb/vpi/tb_itch.c:41-57 | A new element with the message and its id is last. |
| Slist.Head.FifoPop | Nasdaq-HFT-FPGA-master/tb/vpi/tb_itch.c:63-96 | The oldest message and its id, or nothing from an empty queue. |
| Slist.Head.FifoFree | Nasdaq-HFT-FPGA-master/tb/vpi/tb_itch.c:23-36 | Every remaining element is released once, in order, and the loop ends. |
| Slist.FifoOrder | Nasdaq-HFT-FPGA-master/tb/vpi/tb_itch.h:159-188 | For every sequence of pushes and pulls: what was pulled and then what is left is what was there and then what was pushed. |
| Slist.Perform | Nasdaq-HFT-FPGA-master/tb/vpi/tb_itch.h:159-188 | The linked queue gives the results of the mathematical one for every sequence of operations. |
| TestBench.Tv.constructor | Nasdaq-HFT-FPGA-master/tb/vpi/tv.c:16-39 | A driver with an empty packet, an empty queue and no buffer. |
| TestBench.Tv.ReadMessages | Nasdaq-HFT-FPGA-master/tb/vpi/tv.c:49-80 | The next messages of the file, as many as asked for or all that are left, go into the packet and, each with its debug id, on the queue. |
| TestBench.Tv.FlattenAndClear | Nasdaq-HFT-FPGA-master/tb/vpi/tv.c:82-94 | The buffer holds the packet, or is null without messages; the packet is empty and the sequence number advanced. |
| TestBench.Tv.CreatePacket | Nasdaq-HFT-FPGA-master/tb/vpi/tv.c:44-99 | One packet: as many messages as asked for or all that are left; its bytes are their encoding, the queue gains one entry for each, the next packet continues the sequence numbers. |
| TestBench.Tv.TakeBeat | Nasdaq-HFT-FPGA-master/tb/vpi/tv.c:116-118 | The beat at the index with its mask and last flag; the index moves on. |
| TestBench.Tv.NextBeat | Nasdaq-HFT-FPGA-master/tb/vpi/tv.c:101-119 | The next beat of the packet, or the first of a new one, of what is left at the end of the file too, when the packet is finished, or no packet when nothing is left. |
| TestBench.EntriesAt | Nasdaq-HFT-FPGA-master/tb/vpi/tv.c:71-79 | The k-th message of a run has debug id (session, first sequence number + k). |
| TestBench.EntriesConcat | Nasdaq-HFT-FPGA-master/tb/vpi/tv.c:44-99 | The entries of consecutive packets are those of one long list of messages. |
| TestBench.ExpectationsAgree | Nasdaq-HFT-FPGA-master/tb/vpi/tv.c:71-79 | What the queue expects is what the format promises of the packet. |
| TestBench.RoundTrip | Nasdaq-HFT-FPGA-master/tb/vpi/moldudp64.c:65-193 | The routines one behind the other: flattened, cut into beats and clocked into the receiver, the messages of one packet come back the same with their debug ids. |
| TestBench.Transmit | Nasdaq-HFT-FPGA-master/tb/vpi/tb.c:76-97 | The loop over a buffer frames it exactly and clocks every beat into the receiver. |
| TestBench.Pause | Nasdaq-HFT-FPGA-master/tb/hft_tb.v:321-328 | Three clocks with valid low and tlast held are clocked into the receiver. |
| TestBench.Simulate | Nasdaq-HFT-FPGA-master/tb/hft_tb.v:309-331 | A whole run of packets of any lengths, with the bench's gap behind each: for every message sent there is one record, equal to its queue entry, with ids that run on across packets, and the receiver is ready at the end. |
| TestBench.SendableLong | Nasdaq-HFT-FPGA-master/tb/vpi/tv.c:44-99 | Messages of 9 to 50 bytes can be sent in packets of any sizes from 1 to 100. |
| Book.OrdersAreRunningBests | src/kernel.c:318-358 | Over every run of packets the orders are exactly the strict running maxima of the quoted prices, each with its own shares, numbered 1, 2, 3, ... |
| Book.BestBid | src/kernel.c:349-358 | Over every run, best price and shares are those of the last running maximum and the next id counts them; 0, 0 and 1 without one. |
| Book.DecodeExactly | src/kernel.c:318-347 | A packet quotes if and only if it has 23 bytes or more, a length field of 11, type 'A' and locate 0x0042; price and shares are the eight bytes behind, low byte first. |
| Book.OrderPricesIncrease | src/kernel.c:349-352 | Order prices strictly increase. |
| Book.OrderIdsNeverWrap | src/kernel.c:255-256 | However long the run, ids 1, 2, 3, ... without repeat, at most the best price; the 32-bit counter is 0 only when no higher price exists. |
| Book.OthersAreIgnored | src/kernel.c:319-345 | Packets that quote nothing can be taken out of a run without changing best bid or orders. |
| Book.DecodeIgnoresRest | src/kernel.c:318-340 | What lies in the buffer behind the 23 bytes that are read has no effect. |
| Generator.MakeRawPacket | generator/moldudp64generator.py:32-63 | The bytes built in place hold every field where the kernel looks for it; there is an error exactly when the type is no ASCII character or no packet at all holds the fields. |
| Generator.PacketFields | generator/moldudp64generator.py:44-61 | Every field can be read back from where the kernel looks for it. |
| Generator.KernelDecodesPacket | generator/moldudp64generator.py:47-60 | The kernel reads the generator's price and shares from intact AAPL 'A' packets and takes every other generated packet for no quote. |
| Generator.FaultsAreIgnored | generator/moldudp64generator.py:49-60 | A malformed or corrupted packet anywhere in a run changes neither the best bid nor the orders. |
| KernelCode.Kernel.constructor | src/kernel.c:203-257 | Rings, globals and the transmit tail register at the start are those of the ring machine: sixteen empty slots of 64 bytes, indices and tail 0, the first order id 1. |
| KernelCode.Kernel.ReclaimTx | src/kernel.c:259-263 | The loop ends, after exactly (hw - tx_head) mod 16 passes, with tx_head at the value read. |
| KernelCode.Kernel.SendOuch | src/kernel.c:266-315 | It gets through if and only if the ring was not full or a value that the spin read shows it: then the order is in its slot, no other slot changed, and the doorbell names it; else nothing is written. |
| KernelCode.Kernel.HandlePacket | src/kernel.c:318-358 | Book and transmit ring change as the packet's decision calls for and not otherwise, the ring once the spin gets through. |
| KernelCode.Kernel.PollOnce | src/kernel.c:375-398 | One pass: at most one packet is taken, its DD cleared and its decision carried out, and its slot given back when the pass is over. |
| KernelCode.Kernel.PollUndisturbed | src/kernel.c:375-398 | A pass that does not have to wait, the ring being free or no order being posted, is a run of the ring machine's kernel steps. |
| KernelCode.Kernel.PollWaiting | src/kernel.c:266-273 | A pass that spins on a full ring until the NIC shows that it has sent more is a run of kernel and NIC. |
| KernelCode.NicSim.constructor | qemu-plugin/hw_nic_sim.c:91-92 | The receive tail starts at 0. |
| KernelCode.NicSim.RxOne | qemu-plugin/hw_nic_sim.c:49-69 | A packet is in its slot with length and DD set, in front of what the buffer held; the tail register names the slot. |
| KernelCode.NicSim.RxBh | qemu-plugin/hw_nic_sim.c:43-75 | The waiting packets fill consecutive slots, and the tail register names the slot of the last one, or is unchanged without any. |
| KernelCode.BurstIsHeld | qemu-plugin/hw_nic_sim.c:48-71 | Of up to 16 packets each is in its own slot, across the wrap-around, and all other slots are unchanged. |
| RingsProof.StepKeeps | src/kernel.c:259-398 | While at most sixteen packets wait for a decision, every access of kernel or NIC keeps the invariant of both rings and of the decisions. |
| RingsProof.HandlesEachPacketOnce | src/kernel.c:375-398 | In every interleaving, while at most sixteen packets wait for a decision, the kernel decides on the packets received in order, each once, on the bytes that were sent, and the sender's count of those that wait is right. |
| RingsProof.ReceiveSlotsDisjoint | qemu-plugin/hw_nic_sim.c:48-71 | Under the same sender, the slot that the NIC writes is never the one that the kernel reads. |
| RingsProof.DescriptorDoneMeansComplete | qemu-plugin/hw_nic_sim.c:58-61 | Under the same sender, DD is set only on a slot that holds a complete packet not yet decided on. |
| RingsProof.TransmitRingSafe | src/kernel.c:259-315 | In every run, whatever the sender does: reclaimed <= sent <= posted <= reclaimed + 15; orders go out in the order posted; the slot being filled is not the one being read. |
| RingsProof.ReclaimExact | src/kernel.c:259-263 | In every run, during reclaim_tx: the passes left are exactly the orders that were sent when the register was read and are not reclaimed, not only modulo 16. |
| RingsProof.SendsOwnBests | src/kernel.c:318-358 | In every run, whatever the sender does, what was sent is a beginning of what was posted, and that of the running maxima, numbered 1, 2, 3, ..., of the quotes that the kernel decided on. |
| RingsProof.SendsRunningBests | src/kernel.c:318-358 | While at most sixteen packets wait for a decision, in every interleaving, what was posted is a beginning of the numbered running maxima of all packets received. |
| RingsProof.QuiescentSendsAll | src/kernel.c:375-398 | Under the same sender, when the kernel has caught up and the NIC has sent what was posted, it is all of them. |
| RingsLive.ComesToRest | src/kernel.c:259-398 | From every state of the invariant, kernel and NIC can get to rest without another arrival; no spin is stuck. |
| RingsLive.EverythingCanBeSent | src/kernel.c:259-398 | Every run under that sender has a continuation without arrivals to a state in which exactly the running maxima of all packets received are out. |
| RingsProof.ReceiveTailRegister | qemu-plugin/hw_nic_sim.c:63-69 | In every run, whatever the sender does, the receive tail is the number of packets received modulo 16 when the NIC is idle, and its register names the last slot filled, one behind only until it is written. |
| RingsProof.TailTellsWaiting | src/kernel.c:310-314 | In every run, tail + 1 - head modulo 16 is the number of orders that wait if and only if there has been an order; before that the tail is 0. |
| RingRuns.ReceivesAll | qemu-plugin/hw_nic_sim.c:48-71 | Packets that come while the kernel stands still are received by a run of the machine with the result of ReceivedAll. |
| RingRuns.ReceivedAllRx | qemu-plugin/hw_nic_sim.c:48-71 | That result is the one of the receive routine in place: consecutive slots, the same tail and tail register, and nothing else changed. |
| RingRuns.PollPass | src/kernel.c:375-398 | The machine's kernel steps make a whole pass of the polling loop: reclaim, test, read, clear, decide, send and give back. |
| RingRuns.SpinPass | src/kernel.c:268-273 | With the ring full, some run of the NIC and of the spin posts the order, for every number of orders that the NIC may send meanwhile. |
| RingRuns.OneTooMany | qemu-plugin/hw_nic_sim.c:48-71 | There is a run in which one packet arrives while sixteen wait, and the kernel's first decision is on the wrong packet. |
| RingRuns.PacingIsExact | qemu-plugin/hw_nic_sim.c:48-71 | Under a sender that keeps fewer than a bound of packets waiting when it sends, the kernel decides rightly in every run if and only if the bound is at most sixteen. |

## Left out

- Heartbeat packets (count 0), end-of-session packets (count 0xFFFF) and gaps inside a packet: the receiver is not built for them (DispatchSteps.GatesQuiet shows what a gap does).
- Messages of fewer than seven bytes, against the assumption at `nic/verilog/dispatch.v:153`.
- Packets.LeavesCleanIdle: says nothing behind a packet in which a wrong held length leads to a wrong delivery.
- Packets.LeavesOneHot: likewise.
- Packets.PacketEnds: likewise.
- Packets.BytesOfPacket: likewise.
- Packets.RegistersOnEveryBeat: only while every length taken from the mux is right, since the length register is wrong otherwise.
- Unknown values (X) of the hardware language: registers start with arbitrary values. Output bytes that are not driven are not listed; a consumer that takes them gets zeros, and a record that has any is longer than its message.
- What an incomplete `always_comb` takes on while registers and inputs change one behind the other: one value a clock is modelled, and the length mux holds the one of the last clock that selected.
- Wires that drive nothing (`sel_msg_len_dec`, `pload_overlap_len`, `header_msg_len`), `keep_i`, `tready` (constant 1) and `tuser`.
- `miss_msg.v`, `countdown.v`, `overlap.v`, `length.v`, `cnt_ones_thermo.v` and `nic.v`, and builds of the parser without message ids.
- TestBench.Simulate: takes packets made by CreatePacket, where the bench calls NextBeat from the loop.
- Allocation, release and reading of the message file in C: the file is a list of messages of 1 to 50 bytes, and a released element is one that is returned.
- ITCH decoding and printing and the VPI calls: messages are opaque byte strings.
- What the receive ring holds after an overrun, beyond the run of RingRuns.OneTooMany that shows a wrong decision; the transmit ring and the orders stay as RingsProof.TransmitRingSafe and RingsProof.SendsOwnBests say.
- The transmitting NIC is not in the repository: it is assumed to read posted slots in order and to advance the head register afterwards.
- KernelCode.Kernel.SendOuch: the register values that the spin has read are a parameter. RingsLive.ComesToRest shows that kernel and NIC can always go on, not that a scheduler lets them.
- KernelCode.Kernel methods are sequential; interleaving is in Rings, where each access is one step.
- Descriptor addresses and command bits, the constant fields of an order, memory fences, timing taps, serial output, PCI and boot code.
- Datagrams are as received, 1 to 64 bytes: `recv` cuts longer ones.
- `nic/moldudp64_parser.c`, which repeats the decoding of `handle_packet`, and the generator's pacing loops and message types of more than one character.
