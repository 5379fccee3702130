# Verified model of an X.25 PAD over XOT

A Dafny model of libxotpad: X.25 virtual circuits over TCP (XOT, RFC 1613), and
the packet assembler/disassembler (PAD) on top of them.

Two ends of a circuit exchange packets through FIFO channels. Each end has a state
machine, a send window with numbers modulo 8 or 128, acknowledgements carried in data
or in receive ready, fragmentation and reassembly, resets and clears. The main
results hold in every run, that is, in every interleaving of the users' calls,
arriving packets, timers and link failures at both ends:

- what is received is a prefix of what was sent, and all of it once things come to rest;
- no arriving packet provokes a reset, and packets and acknowledgements of one epoch
  (the time between two resets) are never taken for those of another;
- nothing waits without a reason, and deliveries come to an end;
- the same holds when the channels are byte streams of encoded, framed packets that
  arrive in pieces of any size;
- one end keeps its guarantees against a peer that sends anything;
- what is typed at a PAD is what the remote reader reads.

## How it is organised

| files | subject |
|---|---|
| Wrappers, Buffers | bytes, results, buffers and cursors |
| Seq | sequence numbers and the class `Window` |
| X121, Facility, Packet, PacketRoundTrip, PacketBytes | packets and their encoding, as functions, and which bytes are encodings |
| FacilityCodec, PacketCodec | the encoders and decoders as loops over buffers, against those functions |
| XotLink, Wire | framing on a byte stream, and the class `XotLink` |
| Negotiation, Circuit | what a circuit does, as functions from state to state |
| Labels, Formats | what every packet carries, and the formats on the wire bit by bit |
| VcInner | the circuit as a class with wrapped numbers and byte output, against those functions |
| System, Flow, Invariant, Preservation, Steps | the two-party system and its invariant |
| Messages, Delivery, Drain, Theorems | the guarantees for all runs |
| Resync, Collisions | resets that cross, and resets that come too early |
| WireSystem | the same system over byte streams, refining the first |
| Agreement, Clearing, Peer | call set-up, clearing, and safety against any peer |
| X3, X29, X29Codec, PadParams | PAD parameters and the messages that read and set them |
| PadStream, Pad, Terminal | the PAD: streams as functions, the class, and end to end |

The functions of `Circuits` keep sequence numbers as unbounded totals since the last
(re)start. The classes keep the wrapped bytes of the source beside ghost totals, and
their methods are proved to do to the totals what the functions say and to write
exactly the frames of the packets the functions send.

## Choices

- Masks and shifts are written as division and remainder by powers of two.
- A handler that runs under the state lock is one step. `send` is two: queueing all
  fragments, and pumping. `SubmitMessage` and `Pump` may be separated by other steps.
- Timers are events that may happen at any time in a state that waits for them.
- The link is an oracle: `room` packets more, then it fails. A circuit whose link fails
  goes out of order, as in the source. A failing write leaves nothing on the stream.
- A reset started while the confirm of the previous one is still outstanding can mix up
  epochs; ITU-T X.25 (10/96) section 4.4.3 expects one reset procedure at a time, the
  source does not prevent it. `Enabled` excludes such a reset. `PrematureResetAnywhere`
  shows what happens otherwise, reachable from every live state; `SoleInitiator` that the
  rule excludes nothing as long as one end starts all resets; and
  `CollisionOpensOneEpoch` that a collision within it resolves.
- A new window asserts that its size is between 1 and the modulus less one. Whether a
  call accept or request satisfies this is decided exactly by `CallAcceptWindow` and
  `CallRequestWindow`; `CallAcceptWindowFails` is a case where it does not.
- Where the source has no code, the model has a precondition: a clear collision
  (`Handles`), pumping while a reset is under way, clearing when not connected,
  packets that do not decode, settings without parameters, answers about parameter
  numbers above 0x7f, and an answer that cannot be sent.
- A facility is decoded by class first and then by code; the source asks for the two
  special codes first. Both belong to class B, so the outcome is the same.
- Decoders pass over some bytes, such as those after a clear confirm or a zero
  diagnostic spelled out; `SpareFree` says which, and `ExactBytes` that packets without
  them, and only those, encode to the bytes they came from.
- An empty read stands for the end of the stream and for a read that fails: the source
  ends with an error either way.
- The parameters a PAD hands to its user (`Delegate`) are modelled by what the trait is
  used for: each value is stored or refused, and storing one touches no other.
- A PAD sees its circuit as the list of messages given to it and the number of further
  calls that will succeed; such a call is `Enqueue` followed by `SendQueuedData`.

## Model

| member | source | states |
|---|---|---|
| Theorems.DeliveredInOrder | libxotpad/src/x25/vc.rs:369-444 | in every run of two connected ends — sends, pumps, deliveries, timers, clears, link failures and resets in any interleaving — what `recv` returns at an end that starts no reset is a prefix of the non-empty messages given to `send` at the other, with their qualifiers |
| Theorems.CompleteDelivery | libxotpad/src/x25/vc.rs:710-759 | when a run without resets comes to rest, all non-empty messages have been received at both ends, both queues are empty and both windows fully open |
| Theorems.NoSpuriousReset | libxotpad/src/x25/vc.rs:712-758 | in every state reached without a reset during an outstanding confirm, no arriving packet makes an end send a reset request, however often the numbers wrap and whatever resets came before |
| Theorems.EpochsAgree | libxotpad/src/x25/vc.rs:760-782 | across any number of such resets by either end: what is accepted in an epoch is a prefix of what was sent in that same epoch, and nothing counts as acknowledged that was not accepted in it |
| Theorems.ResetsLoseNothing | libxotpad/src/x25/vc.rs:917-945 | if one end, either one, starts all the resets, everything it sends arrives in order without a gap, and nothing is lost on the way into or out of its queue; the other direction is in order within each epoch, with gaps only at resets |
| Theorems.SoleInitiator | libxotpad/src/x25/vc.rs:446-460 | if only one end, either one, starts resets, the model allows it a reset whenever the source does, so the rule on outstanding confirms costs nothing there |
| Theorems.NoLostWakeup | libxotpad/src/x25/vc.rs:380-404 | at both ends, in reset-free runs, a non-empty queue means a closed window or a `send` that has still to pump; the newest acknowledgement under way is for everything accepted |
| Theorems.RunSound | libxotpad/src/x25/vc.rs:651-839 | the whole invariant — sequence numbers, epochs, acknowledgements, handshake, streams — holds in every reachable state |
| Theorems.NeverStuck | libxotpad/src/x25/vc.rs:712-759 | two live ends that are not at rest always have a delivery, pump or receive to make |
| Theorems.ComesToRest | libxotpad/src/x25/vc.rs:712-759 | from every reachable state with both ends alive, such steps lead to rest within a bound |
| Theorems.WorkKeepsAlive | libxotpad/src/x25/vc.rs:651-839 | while both ends are alive, no such step over a working link ends the circuit |
| Drain.WorkDecreases | libxotpad/src/x25/vc.rs:947-1007 | in every state, each delivery, pump or receive makes a measure of queues and packets in flight smaller |
| Drain.WorkEnds | libxotpad/src/x25/vc.rs:947-1007 | so once no more is sent, the number of such steps is bounded |
| Drain.Drained | libxotpad/src/x25/vc.rs:731-758 | with both channels empty both ends are in data transfer in the same epoch, everything of it is accepted and acknowledged, and a queue is kept only by a pump still to come or a reset |
| Steps.DeliverKeeps | libxotpad/src/x25/vc.rs:651-839 | handling any packet that can arrive keeps the invariant of both ends and both channels, and starts no reset |
| Steps.StepKeeps | libxotpad/src/x25/vc.rs:651-1007 | so does every other step: sending, pumping, timers, resets, clears, link failure |
| Steps.RunKeeps | libxotpad/src/x25/vc.rs:651-1007 | the invariant holds after every run |
| Steps.DataStep | libxotpad/src/x25/vc.rs:712-747 | handling acceptable data is accepting it and then responding, for the system as a whole |
| Delivery.StepStreams | libxotpad/src/x25/vc.rs:380-444 | every step conserves the bytes between `send` and the log of packets sent, and between the log of packets accepted and `recv` |
| Delivery.SendQueuedConserves | libxotpad/src/x25/vc.rs:956-983 | what a pump sends and what it leaves in the queue are together the queue it found |
| Messages.FragmentsOfOne | libxotpad/src/x25/vc.rs:380-394 | the packets a message is cut into are one complete sequence that joins to the message, with its qualifier; an empty message has none |
| Messages.CompleteCut | libxotpad/src/x25/vc.rs:1177-1197 | reassembling the packets of any list of messages gives the non-empty ones back, in order |
| Messages.CompletePrefix | libxotpad/src/x25/vc.rs:1177-1197 | a prefix of a packet stream reassembles to a prefix of its messages |
| Circuits.FragmentSizes | libxotpad/src/x25/vc.rs:378-394 | all packets of a message but the last are full and have the more bit, the last is neither empty nor too large and has not, and all have the qualifier |
| Resync.CollisionOpensOneEpoch | libxotpad/src/x25/vc.rs:760-783 | a reset collision, from every state in which both requests are sent and no confirm is, with anything queued or under way, and in every interleaving: no further reset request is sent unless a user asks for one, later traffic included, and each end that is back in data transfer has entered exactly one new epoch, the same at both |
| Resync.CollisionComesToRest | libxotpad/src/x25/vc.rs:760-783 | and both ends do come back: deliveries, pumps and receives lead from every collision to rest in data transfer, one epoch on |
| Resync.RunOwes | libxotpad/src/x25/vc.rs:934-945 | in every run between live ends each confirm an end still waits for is under way, or its request is |
| Collisions.CollisionResolves | libxotpad/src/x25/vc.rs:760-783 | a witness: six moves from rest, through a collision in which both stray confirms are ignored, to rest with fresh windows |
| Collisions.PrematureReset | libxotpad/src/x25/vc.rs:446-460 | the exception: from every state at rest, a reset started while an earlier confirm is outstanding leads to a packet accepted in the wrong epoch and then to a reset nobody asked for |
| Collisions.PrematureResetAnywhere | libxotpad/src/x25/vc.rs:446-460 | and from every reachable state in which both ends live, an allowed run leads to where either end can bring this about |
| Seq.NextSeqCounts | libxotpad/src/x25/seq.rs:21-24 | the next number is the number of the next total, for both moduli |
| Seq.TotalIsUnique | libxotpad/src/x25/seq.rs:77-95 | within one cycle a number stands for exactly one total |
| Seq.RangeTestIsExact | libxotpad/src/x25/seq.rs:77-95 | the comparison of wrapped numbers holds exactly when one total between acknowledged and sent has the number, and that total is unique |
| Seq.OpenTestIsExact | libxotpad/src/x25/seq.rs:47-49 | the wrapped comparison says open exactly when fewer packets than the window size are unacknowledged |
| Seq.Window.constructor | libxotpad/src/x25/seq.rs:36-45 | a new window is valid and stands at total 0 |
| Seq.Window.IsOpen | libxotpad/src/x25/seq.rs:47-49 | open exactly when fewer packets than the window size are unacknowledged; no byte overflows |
| Seq.Window.Next | libxotpad/src/x25/seq.rs:51-53 | the number of the next packet is the total sent, wrapped |
| Seq.Window.Incr | libxotpad/src/x25/seq.rs:55-63 | succeeds exactly when the window is open, and then counts one packet sent; the window stays valid |
| Seq.Window.UpdateStart | libxotpad/src/x25/seq.rs:65-74 | succeeds exactly when some total already sent and not yet acknowledged past has the number, and then acknowledges up to it |
| Negotiation.PacketSizeIsFirst | libxotpad/src/x25/vc.rs:1135-1143 | the packet sizes found are those of the first facility that states any, and none are found only if none does |
| Negotiation.WindowSizeIsFirst | libxotpad/src/x25/vc.rs:1145-1153 | the same for window sizes |
| Agreement.EndsAgree | libxotpad/src/x25/vc.rs:1042-1157 | after the exchange of set-up packets both ends have the modulus of the caller and mirrored packet and window sizes, each window between 1 and the modulus less one, whatever the called side was configured for |
| Agreement.SetUpReachesInit | libxotpad/src/x25/vc.rs:82-114 | placing, receiving and accepting a call over the wire ends in a start state of the two-party system; the called side has the address called, the address calling, the user data, channel and sizes the caller gave, and the accept says the sizes of the called side and nothing else |
| Agreement.RefusedCall | libxotpad/src/x25/vc.rs:333-366 | a refused call: the caller is told the cause and diagnostic given, both ends are cleared at once and nothing more is sent |
| Agreement.UnansweredCall | libxotpad/src/x25/vc.rs:695-706 | a call nobody answers: the caller asks to clear it with cause 19 and diagnostic 49, the called side is cleared by that without a confirm, and the caller goes out of order at its next timer |
| Negotiation.CallingSettles | libxotpad/src/x25/vc.rs:1091-1111 | what a call accept makes of the parameters: the modulus of the packet, the sizes the first facility states, cut to the modulus for windows, and what it does not state as it was |
| Negotiation.CalledSettles | libxotpad/src/x25/vc.rs:1113-1133 | the same for a call request, with the directions exchanged |
| Agreement.CallRequestFits | libxotpad/src/x25/vc.rs:1042-1067 | exactly when the call request built from given parameters can be encoded and framed |
| Agreement.CallAcceptFits | libxotpad/src/x25/vc.rs:1069-1089 | exactly when the call accept can |
| Agreement.CallAcceptWindow | libxotpad/src/x25/vc.rs:1091-1111 | exactly when a received call accept leaves parameters that satisfy the assertion of a new window |
| Agreement.CallRequestWindow | libxotpad/src/x25/vc.rs:1113-1133 | the same for the called side |
| Agreement.CallAcceptWindowFails | libxotpad/src/x25/seq.rs:36-37 | a call accept without facilities that breaks that assertion |
| Clearing.ClearingCompletes | libxotpad/src/x25/vc.rs:203-238 | from every reachable live state, after either end clears the call, by its user with a cause and diagnostic or on T21 or T22 with those of the timer, and as long as nothing interferes: whatever else is under way, when nothing is left on the way the clearing end is cleared as its initiator with a confirm, and the other end by a request with that cause and diagnostic |
| Clearing.ClearingReachesEnd | libxotpad/src/x25/vc.rs:805-816 | and taking the packets that arrive gets there in finitely many steps |
| Clearing.ClearStarts | libxotpad/src/x25/vc.rs:874-899 | the request asks on the own channel, with the cause and diagnostic of user or timer, and nothing else |
| Clearing.RequestAnswered | libxotpad/src/x25/vc.rs:901-915 | a living end that takes the request answers with a bare confirm and is cleared by it |
| Circuits.OthersArePassedOver | libxotpad/src/x25/vc.rs:651-839 | all packets but those listed for each state are passed over, a timer counts only where one runs and no packet came, and T23 puts the circuit out of order |
| Labels.EverythingSentIsLabelled | libxotpad/src/x25/vc.rs:963-972 | for every circuit and input: all packets sent are on the own channel, with the own modulus and without the D bit, and the channel never changes |
| Labels.FailingLinkEnds | libxotpad/src/x25/vc.rs:974-977 | whenever an input makes a circuit send and its link fails to, nothing is sent and the circuit is out of order |
| Peer.RefusalsSayWhy | libxotpad/src/x25/vc.rs:712-758 | in every reachable state: data is passed on exactly if its number is the count of data accepted before and its acknowledgement is that of a packet sent and not acknowledged past; otherwise the circuit is reset with cause 5 and diagnostic 1 or 2, and so it is by a receive ready with a bad acknowledgement |
| Peer.SafeAgainstAnyPeer | libxotpad/src/x25/vc.rs:651-839 | for any packets from the peer and any calls of the user: data accepted and data sent since data transfer (re)started are numbered 0, 1, 2 and so on; no more is unacknowledged than the negotiated window, counted from the last acknowledgement accepted |
| Peer.EverythingSentFits | libxotpad/src/x25/vc.rs:841-1107 | in every such state all packets sent encode and fit the limits of XOT, and the circuit goes out of order only for a link without room or at its own end |
| Peer.UnhandledPackets | libxotpad/src/x25/vc.rs:805-817 | exactly which packets the source cannot handle in a reachable state |
| Peer.DecodableIsSound | libxotpad/src/x25/packet.rs:124-175 | the packets that come out of the decoder are exactly the canonical ones within the limits of the encoder |
| PacketRoundTrip.RoundTrip | libxotpad/src/x25/packet.rs:109-175 | every canonical packet that encodes to at most the maximum length decodes to itself |
| PacketRoundTrip.Normalisation | libxotpad/src/x25/packet.rs:109-175 | whatever decodes is canonical, encodes again within the limits, and then decodes to the same packet |
| PacketBytes.ExactBytes | libxotpad/src/x25/packet.rs:109-175 | a decoded packet encodes to the very bytes it came from exactly when these hold nothing the decoder passes over, as a condition on the bytes: unused identifier bits, a half byte after an odd number of digits, blocks that are empty, alone or trailing, an explicit zero diagnostic |
| PacketBytes.OptionalExact | libxotpad/src/x25/packet.rs:296-342 | the same for the optional blocks of call accept and clear request |
| PacketBytes.ConfirmBlocksExact | libxotpad/src/x25/packet.rs:478-544 | and for those of clear confirm, whose trailing bytes are ignored |
| PacketBytes.AddrBlockExact | libxotpad/src/x25/packet.rs:1039-1091 | an address block that decodes encodes to the same bytes exactly when the half byte left over is zero |
| PacketRoundTrip.DecodingForgetsBytes | libxotpad/src/x25/packet.rs:912-946 | a concrete case in which it does not |
| Formats.PacketFormat | libxotpad/src/x25/packet.rs:998-1037 | the first three bytes of every packet: modulus, channel and type, each in its bits |
| Formats.DataFormat | libxotpad/src/x25/packet.rs:574-619 | the bits of data of either modulus: Q, D, P(R), M, P(S), user data |
| Formats.ReceiveFormat | libxotpad/src/x25/packet.rs:703-738 | the bits of receive ready and receive not ready of either modulus |
| Formats.ResetFormat | libxotpad/src/x25/packet.rs:896-965 | the bytes of reset request and confirm |
| Formats.AddrFormat | libxotpad/src/x25/packet.rs:1039-1057 | the half bytes of the address block: both lengths, then all digits without a gap |
| Formats.FacilityFormat | libxotpad/src/x25/facility.rs:37-119 | code and parameters of each facility |
| Formats.FacilitiesFormat | libxotpad/src/x25/packet.rs:1093-1109 | a facilities block is its length and its facilities in order |
| Formats.CallRequestFormat | libxotpad/src/x25/packet.rs:191-208 | the order of the blocks of a call request |
| Formats.CallAcceptFormat | libxotpad/src/x25/packet.rs:268-294 | the blocks of a call accept, and when they are left out |
| Formats.ClearRequestFormat | libxotpad/src/x25/packet.rs:365-400 | cause, diagnostic and blocks of a clear request, and what is left out |
| Formats.ClearConfirmFormat | libxotpad/src/x25/packet.rs:478-499 | the blocks of a clear confirm, and what is left out |
| PacketRoundTrip.CallRequestRoundTrip | libxotpad/src/x25/packet.rs:191-247 | round trip of call requests |
| PacketRoundTrip.CallAcceptRoundTrip | libxotpad/src/x25/packet.rs:268-342 | round trip of call accepts, whose blocks are optional |
| PacketRoundTrip.ClearRequestRoundTrip | libxotpad/src/x25/packet.rs:365-458 | round trip of clear requests, whose diagnostic and blocks are optional |
| PacketRoundTrip.ClearConfirmRoundTrip | libxotpad/src/x25/packet.rs:478-544 | round trip of clear confirms |
| PacketRoundTrip.NormalDataRoundTrip | libxotpad/src/x25/packet.rs:574-659 | round trip of data with numbers modulo 8 |
| PacketRoundTrip.ExtendedDataRoundTrip | libxotpad/src/x25/packet.rs:596-685 | round trip of data with numbers modulo 128 |
| PacketRoundTrip.ReceiveRoundTrip | libxotpad/src/x25/packet.rs:703-877 | round trip of receive ready and receive not ready |
| PacketRoundTrip.ResetRoundTrip | libxotpad/src/x25/packet.rs:896-991 | round trip of reset requests and confirms |
| Packets.HeaderRoundTrip | libxotpad/src/x25/packet.rs:998-1037 | the header gives back modulus, flags, channel and type |
| Packets.AddrBlockRoundTrip | libxotpad/src/x25/packet.rs:1039-1091 | two addresses of up to 15 digits come back from their block, also when they share a byte, and exactly the bytes after it remain |
| Packets.FacilitiesBlockRoundTrip | libxotpad/src/x25/packet.rs:1093-1126 | the facilities block gives back its facilities and leaves the rest |
| Packets.FacilitiesBlockInverse | libxotpad/src/x25/packet.rs:1093-1126 | a block that decodes encodes to the same bytes |
| X121.FromDigits | libxotpad/src/x121.rs:22-35 | digits make an address exactly when there are at most 15 of them and each is at most 9 |
| Facilities.ParamsRoundTrip | libxotpad/src/x25/facility.rs:68-119 | the parameters of one facility come back |
| Facilities.ListRoundTrip | libxotpad/src/x25/facility.rs:54-191 | canonical lists of unique facilities come back |
| Facilities.DecodeIsInjective | libxotpad/src/x25/facility.rs:127-191 | bytes that decode are the only encoding of the list they decode to |
| Facilities.ListEncodes | libxotpad/src/x25/facility.rs:54-125 | a list encodes exactly when each facility does and no code occurs twice |
| Facilities.DecodedCodesAreDistinct | libxotpad/src/x25/facility.rs:127-191 | so no decoded list has a code twice |
| Facilities.EncodePacketSize | libxotpad/src/x25/facility.rs:285-307 | an encoded packet size decodes to itself |
| Facilities.PacketSizeInverse | libxotpad/src/x25/facility.rs:285-307 | each of the nine codes is the code of its size |
| FacilityCodec.EncodeFacilities | libxotpad/src/x25/facility.rs:54-125 | the loop over the list, with its set of codes and running length, appends the encoding or reports its error |
| FacilityCodec.DecodeFacilities | libxotpad/src/x25/facility.rs:127-191 | the loop over the buffer decodes the list or reports its error |
| PacketCodec.WriteHeader | libxotpad/src/x25/packet.rs:998-1019 | appends and counts the bytes of the header, or reports why not |
| PacketCodec.WriteAddrBlock | libxotpad/src/x25/packet.rs:1039-1057 | appends and counts the bytes of the address block, or reports why not |
| PacketCodec.WriteFacilitiesBlock | libxotpad/src/x25/packet.rs:1093-1109 | appends and counts the bytes of the facilities block, or reports why not |
| PacketCodec.WriteCallRequest | libxotpad/src/x25/packet.rs:191-208 | appends and counts the bytes of a call request, or reports why not |
| PacketCodec.WriteCallAccept | libxotpad/src/x25/packet.rs:268-294 | appends and counts the bytes of a call accept, or reports why not |
| PacketCodec.WriteClearRequest | libxotpad/src/x25/packet.rs:365-400 | appends and counts the bytes of a clear request, or reports why not |
| PacketCodec.WriteClearConfirm | libxotpad/src/x25/packet.rs:478-499 | appends and counts the bytes of a clear confirm, or reports why not |
| PacketCodec.WriteData | libxotpad/src/x25/packet.rs:567-619 | appends and counts the bytes of data of either modulus, or reports why not |
| PacketCodec.WriteReceive | libxotpad/src/x25/packet.rs:703-738 | appends and counts the bytes of receive ready, and receive not ready, or reports why not |
| PacketCodec.WriteResetRequest | libxotpad/src/x25/packet.rs:896-910 | appends and counts the bytes of a reset request, or reports why not |
| PacketCodec.WritePacket | libxotpad/src/x25/packet.rs:109-122 | appends and counts exactly the encoding of a packet, or reports its error with nothing before it changed |
| PacketCodec.ReadAddrBlock | libxotpad/src/x25/packet.rs:1059-1091 | consumes the address block from the cursor with the result, error and rest of the mapping |
| PacketCodec.ReadFacilitiesBlock | libxotpad/src/x25/packet.rs:1111-1126 | consumes the facilities block from the cursor with the result, error and rest of the mapping |
| PacketCodec.ReadCallRequest | libxotpad/src/x25/packet.rs:210-246 | consumes a call request from the cursor with the result, error and rest of the mapping |
| PacketCodec.ReadCallAccept | libxotpad/src/x25/packet.rs:296-342 | consumes a call accept from the cursor with the result, error and rest of the mapping |
| PacketCodec.ReadClearRequest | libxotpad/src/x25/packet.rs:402-458 | consumes a clear request from the cursor with the result, error and rest of the mapping |
| PacketCodec.ReadClearConfirm | libxotpad/src/x25/packet.rs:501-544 | consumes a clear confirm from the cursor with the result, error and rest of the mapping |
| PacketCodec.ReadData | libxotpad/src/x25/packet.rs:621-685 | consumes data of either modulus from the cursor with the result, error and rest of the mapping |
| PacketCodec.ReadResetRequest | libxotpad/src/x25/packet.rs:912-946 | consumes a reset request from the cursor with the result, error and rest of the mapping |
| PacketCodec.ReadPacket | libxotpad/src/x25/packet.rs:124-175 | the dispatch on the type byte computes the mapping of bytes to packets |
| Xot.DeframingConserves | libxotpad/src/xot/link.rs:94-133 | the packets taken off a stream, framed again, and what is left are the stream |
| Xot.DeframingInverts | libxotpad/src/xot/link.rs:73-133 | frames sent one after the other give back exactly their packets, before whatever follows |
| Xot.DeframeMore | libxotpad/src/xot/link.rs:94-133 | bytes that arrive later change neither a frame nor an error already there |
| Xot.DeframeExact | libxotpad/src/xot/link.rs:94-133 | a frame that was taken off is the frame of its packet |
| Formats.FrameFormat | libxotpad/src/xot/link.rs:73-92 | a frame is version 0, the length with the higher byte first, and a packet of 3 to 4103 bytes |
| Formats.StreamFormat | libxotpad/src/xot/link.rs:94-133 | exactly which streams are in error and which incomplete |
| Xot.XotLink.Decode | libxotpad/src/xot/link.rs:94-133 | takes the first frame off the buffer, waits, or reports an error without touching the buffer |
| Xot.XotLink.Recv | libxotpad/src/xot/link.rs:37-56 | the outcome depends on the bytes of the stream alone, not on how they are divided into reads, and no byte is lost |
| Xot.XotLink.Send | libxotpad/src/xot/link.rs:27-34 | writes the whole frame of a packet of legal length, or nothing |
| Xot.RecvAll | libxotpad/src/x25/vc.rs:579-591 | receiving until something else comes up yields the packets of the stream, then its error, end or wait |
| Wire.HeadOfBuffer | libxotpad/src/xot/link.rs:37-56 | of a FIFO of packets on a byte stream, however much has been received, the buffer parses to the first packet or to nothing yet, never to an error |
| WireSystem.WireRefines | libxotpad/src/x25/vc.rs:1033-1039 | every run of two ends over byte streams is, step for step, a run over packet channels with the same ends |
| WireSystem.WireFollows | libxotpad/src/x25/vc.rs:568-641 | conversely, what the packet channels allow the byte streams allow once their bytes are read, with the same outcome |
| WireSystem.NoDecodingError | libxotpad/src/x25/vc.rs:615-624 | received bytes always decode, to the packet sent next |
| WireSystem.WireDelivery | libxotpad/src/x25/vc.rs:1033-1039 | in-order delivery over every run on byte streams, read in pieces of any size |
| WireSystem.HandleCarriable | libxotpad/src/x25/vc.rs:651-839 | a circuit sends only packets that come back unchanged from the wire |
| Vc.DataTransferState.UpdateRecvSeq | libxotpad/src/x25/vc.rs:1160-1169 | accepts exactly the number of the total received, and counts it |
| Vc.DataTransferState.UpdateSendWindow | libxotpad/src/x25/vc.rs:1171-1174 | accepts exactly the acknowledgements the window allows |
| Vc.VcInner.SendPacket | libxotpad/src/x25/vc.rs:1033-1039 | writes the frame of the encoded packet exactly when the link carries it |
| Vc.VcInner.EnterDataTransfer | libxotpad/src/x25/vc.rs:841-855 | entering data transfer with a fresh window: the new state, both queues, and the bytes written are those of the circuit function |
| Vc.VcInner.ClearRequest | libxotpad/src/x25/vc.rs:874-899 | sending a clear request, or going out of order: the new state, both queues, and the bytes written are those of the circuit function |
| Vc.VcInner.ClearConfirm | libxotpad/src/x25/vc.rs:901-915 | sending a clear confirm: the new state, both queues, and the bytes written are those of the circuit function |
| Vc.VcInner.ResetRequest | libxotpad/src/x25/vc.rs:917-932 | sending a reset request: the new state, both queues, and the bytes written are those of the circuit function |
| Vc.VcInner.ResetConfirm | libxotpad/src/x25/vc.rs:934-945 | sending a reset confirm and starting over: the new state, both queues, and the bytes written are those of the circuit function |
| Vc.VcInner.SendQueuedData | libxotpad/src/x25/vc.rs:947-990 | the pump: the loop sends what the window lets through, stops at a refusal, and counts: the new state, both queues, and the bytes written are those of the circuit function |
| Vc.VcInner.ReceiveReady | libxotpad/src/x25/vc.rs:992-1007 | sending receive ready: the new state, both queues, and the bytes written are those of the circuit function |
| Vc.VcInner.TakeData | libxotpad/src/x25/vc.rs:712-747 | data: both checks, the queue, the pump, and receive ready if nothing was pumped: the new state, both queues, and the bytes written are those of the circuit function |
| Vc.VcInner.TakeReceiveReady | libxotpad/src/x25/vc.rs:748-759 | receive ready: the check and the pump: the new state, both queues, and the bytes written are those of the circuit function |
| Vc.VcInner.InSetUp | libxotpad/src/x25/vc.rs:658-709 | the states before data transfer: the new state, both queues, and the bytes written are those of the circuit function |
| Vc.VcInner.InDataTransfer | libxotpad/src/x25/vc.rs:710-770 | the dispatch in data transfer: the new state, both queues, and the bytes written are those of the circuit function |
| Vc.VcInner.InWaitResetConfirm | libxotpad/src/x25/vc.rs:771-804 | waiting for a reset confirm: the new state, both queues, and the bytes written are those of the circuit function |
| Vc.VcInner.InWaitClearConfirm | libxotpad/src/x25/vc.rs:805-834 | waiting for a clear confirm: the new state, both queues, and the bytes written are those of the circuit function |
| Vc.VcInner.HandleInPacket | libxotpad/src/x25/vc.rs:651-839 | one packet, or a timer, in any state: fields and bytes written are exactly those of the circuit function the theorems are about |
| Vc.VcInner.HandleReceived | libxotpad/src/x25/vc.rs:601-641 | a round of the engine: decoding and handling what was received, or going out of order |
| Vc.VcInner.HandleNext | libxotpad/src/x25/vc.rs:568-641 | receiving from the stream and handling is the circuit function of the next packet in the bytes, however they arrive |
| Vc.StreamErrorsEnd | libxotpad/src/x25/vc.rs:603-613 | a stream in error or at its end puts the circuit out of order |
| Vc.VcInner.Call | libxotpad/src/x25/vc.rs:94-114 | placing a call |
| Vc.VcInner.AcceptIncoming | libxotpad/src/x25/vc.rs:303-331 | accepting a call, refused unless one is waiting |
| Vc.VcInner.RejectIncoming | libxotpad/src/x25/vc.rs:333-366 | clearing a call that is waiting |
| Vc.VcInner.Enqueue | libxotpad/src/x25/vc.rs:370-394 | the first half of `send`: the loop over chunks queues exactly the fragments of the message |
| Vc.VcInner.PopCompleteData | libxotpad/src/x25/vc.rs:1177-1197 | takes the first complete message off the queue, joined and with the qualifier of its last packet, or leaves the queue alone |
| X3.ForwardClasses | libxotpad/src/x3.rs:78-123 | the seven forwarding classes are disjoint, each bit adds exactly its own, and together they are letters, digits, both control columns and DEL |
| X3.LfInsertValues | libxotpad/src/x3.rs:175-187 | which values of the parameter insert a line feed on receipt, in what is sent, and in the echo, and that it is after a carriage return only |
| Formats.MessageFormat | libxotpad/src/x29.rs:65-218 | the bytes of each message: its code, two bytes a parameter, and how errors are marked |
| X29.MessageRoundTrip | libxotpad/src/x29.rs:65-151 | every message with parameters up to 0x7f comes back from its encoding |
| X29.DecodedBytes | libxotpad/src/x29.rs:106-151 | exactly when a decoded message encodes to the bytes it came from |
| X29Codec.EncodeParamsRequest | libxotpad/src/x29.rs:154-171 | the loop appends two bytes a pair and counts them |
| X29Codec.DecodeParamsRequest | libxotpad/src/x29.rs:173-187 | the loop over the buffer yields the pairs; an odd length is an error |
| X29Codec.EncodeParamsResponse | libxotpad/src/x29.rs:189-218 | the loop marks errors by the top bit and their code |
| X29Codec.DecodeParamsResponse | libxotpad/src/x29.rs:220-247 | the loop reads them back |
| X29Codec.EncodeMessage | libxotpad/src/x29.rs:66-104 | appends and counts the encoding of a message |
| X29Codec.DecodeMessage | libxotpad/src/x29.rs:106-151 | computes the mapping of bytes to messages |
| X29Codec.PadCallArrives | libxotpad/src/pad.rs:201-220 | the call of a PAD, with call data up to 12 bytes and addresses of any length, always fits, and arrives saying who calls whom, with the PAD protocol and the call data |
| PadParameters.PadParams.Set | libxotpad/src/pad.rs:553-565 | which values of which parameter are stored and which refused, and why; no other parameter changes, and a refusal changes none |
| PadParameters.NumbersNameParameters | libxotpad/src/pad.rs:540-575 | 2, 3, 4, 13 and 15 stand for echo, forwarding, idle delay, line feed insertion and editing, and all others for the delegate |
| PadParameters.PadParams.All | libxotpad/src/pad.rs:567-581 | lists the own parameters, then all its delegate lists, each with its value |
| PadParameters.SetReadParams | libxotpad/src/pad.rs:502-521 | one entry for each pair, in order, with its outcome spelled out for each parameter; every parameter ends as the last value reported for it, or as it was |
| PadParameters.SetParams | libxotpad/src/pad.rs:477-500 | the same, reporting exactly the errors, and nothing if there are none |
| PadParameters.ReadParams | libxotpad/src/pad.rs:464-475 | one entry for each parameter asked for, with its value if it has one; or, if none is named, all of them with their values |
| PadParameters.LastValueIsLast | libxotpad/src/pad.rs:502-521 | the value a parameter settles at is that of the last entry that reports one |
| PadParameters.HandleMessage | libxotpad/src/pad.rs:60-125 | what a PAD answers to a message, as bytes that decode to the answer, and what it changes |
| PadParameters.SetRemoteParams | libxotpad/src/pad.rs:248-257 | setting remote parameters through both codecs: each entry says what the remote type of the parameter makes of the value, and the remote parameters agree with it |
| PadParameters.GetRemoteParams | libxotpad/src/pad.rs:238-246 | reading them: each entry is the remote value, if there is one; all of them when none is named |
| PadStreams.SessionConserves | libxotpad/src/pad.rs:327-426 | over every session of writes, idle expiries and flushes: messages, losses to a failed circuit, and the queue are what was typed with its line feeds; the queue is shorter than a packet and holds no typed byte that forwards; no message exceeds a packet and one line feed |
| PadStreams.NothingWaitsForever | libxotpad/src/pad.rs:166-187 | with an idle delay, whatever waits is sent by a later look of the idle thread |
| PadStreams.WritesClose | libxotpad/src/pad.rs:354-376 | no message is sent early: each one a write makes ends with a byte that forwards or fills the packet, and no byte before it does |
| PadStreams.IdleSends | libxotpad/src/pad.rs:166-187 | after a write the idle thread sends what is left exactly when the parameter is not 0 and 50 milliseconds for each unit have gone by |
| PadStreams.NothingToTime | libxotpad/src/pad.rs:420-426 | a time is set only while text waits |
| PadStreams.FailureStops | libxotpad/src/pad.rs:371-373 | a write stops at the first call that fails |
| PadStreams.WithLfAt | libxotpad/src/x3.rs:175-187 | every byte is in the result, in order, and a line feed right after each carriage return |
| PadStreams.WithLfLength | libxotpad/src/x3.rs:175-187 | and nothing else is |
| PadStreams.WithLfAppend | libxotpad/src/x3.rs:175-187 | inserting line feeds goes byte by byte, so it does not matter how a stream is divided |
| Pads.Pad.Write | libxotpad/src/pad.rs:327-396 | the loop over the bytes: echo, line feed, forwarding, deadline and failure are those of the stream functions |
| Pads.Pad.Flush | libxotpad/src/pad.rs:398-407 | sends off whatever waits |
| Pads.Pad.SendQueuedData | libxotpad/src/pad.rs:420-426 | empties the queue and the deadline into one message |
| Pads.Pad.CheckIdle | libxotpad/src/pad.rs:169-178 | sends off the queue exactly when it is overdue |
| Pads.Pad.QueueRecvData | libxotpad/src/pad.rs:410-418 | queues the data with a line feed after each carriage return, if so set |
| Pads.Pad.Read | libxotpad/src/pad.rs:290-325 | moves as much of the queue into the buffer as fits; end of stream and waiting are told apart |
| PadParameters.ErrorsAreRefusals | libxotpad/src/pad.rs:483-493 | the errors reported are exactly the settings refused |
| Pads.Pad.Obey | libxotpad/src/pad.rs:60-125 | a command is decoded and answered beside the text on its way out; an invitation to clear sends that off |
| Pads.Pad.Receive | libxotpad/src/pad.rs:56-145 | text goes to the reader; commands leave the text on its way out as it is, but for the invitation to clear |
| Terminal.RemoteReads | libxotpad/src/pad.rs:327-426 | from each keyboard to the reader at the other end, over every run of two PADs, their circuits and the byte streams between them, with commands in between: what is read is a prefix of what was typed, with the line feeds of both PADs |
| Terminal.RemoteReadsAll | libxotpad/src/pad.rs:327-426 | and all of it, in both directions, once everything has come to rest without resets |
| Terminal.KeyPadOk | libxotpad/src/pad.rs:354-376 | what a PAD makes of an event arrives in its circuit; text is lost only once the circuit is gone |

## Left out

- Threads, condition variables and lock order; the loops that wait for an outcome in `call`, `listen_timeout`, `clear`, `reset` and `flush`, of which the state changes are modelled.
- Clocks and durations of T21, T22 and T23; only their expiry is an event. The idle deadline of the PAD is kept as a time.
- Partial writes: a frame that fails half way is modelled as not written. The sender is out of order from then on; the receiver would see an incomplete frame at the end of the stream.
- TCP sockets, `shutdown`, splitting a link in two, and name resolution.
- Waking up queued data after a reset: the source does not do it either, so after a reset data may wait for the next packet or `send`; hence `CompleteDelivery` and `NoLostWakeup` are about runs without resets.
- Whole messages across a reset: the queues are not cleared, so a message may be cut by a reset of the receiving end; hence `DeliveredInOrder` is about receivers that start none.
- Receive not ready, the D bit, checks of received packet sizes and of the Q bit, interrupt, restart and diagnostic packets: the source ignores them.
- Theorems.NoSpuriousReset: is about runs in which no end starts a reset while the confirm of its previous one is outstanding; in others the code does send such resets, as `PrematureResetAnywhere` shows.
- Theorems.EpochsAgree: is about the same runs, for the same reason.
- Xot.XotLink.Send: does not model a write that fails half way, see above.
- Pads.Pad.Flush: leaves out the wait for the circuit's own queue to drain.
- Pads.Pad.Receive: an answer is assumed to be sendable, because the source stops when it is not; after an invitation to clear it leaves out the flush and the clear, which are calls of the circuit.
- PadParameters.HandleMessage: leaves out the hand-over of an indication to the caller that waits for it.
- PadParameters.SetRemoteParams: leaves out the slot for one pending command, the time limit and the circuit in between.
- Changing PAD parameters during a session: `SessionConserves` is for fixed parameters; `Pad.Write` is proved for those in force.
- `src/x28`, `src/user_pad.rs`, `src/host_pad.rs`, `src/main.rs`: command line, terminal and configuration.
