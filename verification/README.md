# BLACKTERM NETSTACK in Dafny

A model of the protocol logic of the userspace IPv4 stack, with proofs about whole runs of it. The
centre is the client-side TCP engine of `src/tcp_connection.c`: sequence numbers modulo 2^32, a
16-slot reassembly queue, a 32768-byte ready buffer, a deferred FIN and one retransmission timer with
exponential backoff. Around it stand the Internet checksum and its use in IPv4, ICMP, UDP and TCP,
the wire formats, the HTTP chunked decoder, and the DNS encoder, skipper and response parser.

`dafny verify dfyconfig.toml` checks everything.

## How it is built

- `TcpConnection.dfy` is the engine as an object that updates its fields in place: slot array, ready
  array, counters, timer. Every method is proved to take the object where a function of `TcpModel.dfy`
  takes the value `Conn`, and the theorems are about those functions. `Conn.hist` records what happened
  (the peer's initial sequence number, bytes appended and read, FINs consumed); no operation reads it.
- `TcpEvents.dfy` makes runs: any interleaving of segment arrival, `build_syn`, `build_data`,
  `build_fin`, `build_ack`, `tick` and `read`, with any arguments.
- `TcpInvariants`, `TcpReassembly`, `TcpRuns`, `TcpStream`, `TcpPastFin`, `TcpRoom`, `TcpDuplicates`,
  `TcpStates`, `TcpArrival`, `TcpTimer`, `TcpSending` and `TcpExchange` hold what is proved of all runs.
  `TcpRoom` says exactly when a call fails with -2, and `TcpArrival` exactly what a segment does to the
  state, the acknowledgments and the FINs, without naming the routines that do it.
- `Checksum`, `Transport`, `WireBuffer`, `TcpWire`, `Ipv4`, `Udp` and `Icmp` are the checksum and the
  wire formats; `Chunked`, `DnsName`, `DnsQuery` and `DnsResponse` the two application formats.
- Serializers, checksum loops, the chunked decoder and the DNS routines are methods over arrays and
  loops. The three packet parsers without a loop of their own (`tcp_parse`, `ipv4_parse`, `icmp_parse`)
  are functions from bytes to a packet or an error code.

## Hypotheses

They are predicates in the files, used only where a row below says so.

- *Window* (`TcpReassembly.InWindow`): a segment with payload or FIN starts less than 2^31 from the
  receive position, minus the length of one segment. The comparisons promise no more
  (`src/tcp_connection.c:10-16`) and the code has no window check; `SequenceSpace.OrderFlipsPastHalf`
  shows what happens beyond. Past the FINs of a peer that is not honest, slots may lie between the bytes
  delivered and the receive position, and the distance is counted from there (`TcpPastFin.Close`).
- *Honest peer* (`TcpReassembly.Honest`): payloads are slices of one byte stream at their sequence
  numbers, and a FIN sits at its end. The sending half of this code meets it: `TcpSending.WireIsHonest`
  for everything it hands out, `TcpSending.EndToEnd` for a sender and a receiver together. The answer to
  a SYN has to come from elsewhere, since the engine never sends SYN and ACK in one segment.
- *One incarnation* (`TcpRuns.OneLife`): the caller does not open a connection again that has been
  synchronized. `TcpStream.ClosedRestarts` covers opening again.
- *-2 ends the run* (`TcpRuns.Patient`): the caller gives up when a call returns -2, as
  `tools/netstack_http.c:1398-1409` does.

## What the code does that a reader might not expect

- Payload behind a consumed FIN is still appended in CLOSE_WAIT and LAST_ACK, without counting the FIN
  as a byte, so for an arbitrary peer reassembly does not always refine a set of offsets past a FIN.
  `TcpPastFin.RefinementExactly` gives the exact condition over whole runs; with one FIN it is that no
  payload since then touches the FIN's offset or the one right behind it (`TcpPastFin.OneFinExactly`).
  `TcpExchange.LatePayloadBreaks` is a run from `tcp_connection_init` that fails it, in either state;
  against an honest peer the refinement holds to the end (`TcpStream.HonestReassembly`).
- There is no CLOSING state, and TIME_WAIT is left only by a reset (`TcpStates.Edge`).
- `build_data` and `build_fin` move `send_unacknowledged` up to `send_next` and replace the segment held,
  also while older data is outstanding. That older data is never sent again (`TcpSending.OlderNeverAgain`,
  `TcpSending.ResentIsNew`), so everything outstanding before the call is still held after it exactly when
  nothing was (`TcpSending.HeldOnlyIfAllAcknowledged`).
- A chunk size may have blanks anywhere among its digits: "1 0" is read as 16. `Chunked.LineIsSpelled` and
  `Chunked.NumeralIffNoBlanks` say what is read beyond a numeral with an optional extension.
- `ipv4_serialize` does not reproduce an accepted header whose checksum field is 0xFFFF; it writes 0
  (`Ipv4.EncodeParse` gives the condition exactly).
- The two `overlap > payload_len` guards, the `checksum == 0` exits of the checksumming serializers,
  the final fold loop after `add_bytes` and the `output_offset >= output_len` exit of the chunked
  decoder can never fire. The first are shown dead by `SequenceSpace.OverlapFits`; the others follow
  from the contracts of `ChecksumOf`, `AddBytes` and `DecodeTurn`.

## Model

| member | source | states |
|---|---|---|
| SequenceSpace.ComparisonsAreOrder | src/tcp_connection.c:10-47 | the four signed-distance comparisons are the integer order on unbounded positions less than 2^31 apart |
| SequenceSpace.OrderFlipsPastHalf | src/tcp_connection.c:10-47 | and stop being so at 2^31: a position half the circle or more ahead compares as behind |
| SequenceSpace.OverlapFits | src/tcp_connection.c:400-415 | after the two comparisons the overlap is strictly inside the payload, for any 32-bit values, so the guard cannot fire |
| TcpConnection.Connection.constructor | src/tcp_connection.c:635-684 | the object starts as the initial connection: CLOSED, empty queue and buffer, RTO 1000, limit 5 |
| TcpConnection.Connection.ClearReassembly | src/tcp_connection.c:64-85 | frees every slot, empties the ready buffer, forgets a pending FIN and touches nothing else |
| TcpConnection.Connection.ReadyAppend | src/tcp_connection.c:87-130 | appends all of the data when it fits the capacity, otherwise fails and changes nothing |
| TcpConnection.Connection.FindFreeSlot | src/tcp_connection.c:132-149 | finds the first free slot, or reports that all are used |
| TcpConnection.Connection.RangeAlreadyBuffered | src/tcp_connection.c:155-189 | true exactly when some used slot contains the range |
| TcpConnection.Connection.BufferFuturePayload | src/tcp_connection.c:200-268 | a payload is stored once in the first free slot, ignored when contained, refused when empty, too long or without a slot |
| TcpConnection.Connection.RemoveReassemblySlot | src/tcp_connection.c:270-294 | frees a used slot and lowers the counter; an unused slot or an index out of range changes nothing |
| TcpConnection.Connection.DeliverFrom | src/tcp_connection.c:405-436 | clips what was received, appends the rest and advances receive_next, or fails and changes nothing |
| TcpConnection.Connection.ConsumePendingFin | src/tcp_connection.c:296-334 | a pending FIN is taken exactly when it is at receive_next, with its state change |
| TcpConnection.Connection.PromoteSlotAt | src/tcp_connection.c:356-444 | the inner loop body: stale slot dropped, future slot kept, contiguous slot delivered and dropped |
| TcpConnection.Connection.PromoteReassembly | src/tcp_connection.c:342-453 | the nested loops terminate on the number of used slots and compute the promotion function |
| TcpConnection.Connection.ProcessPayload | src/tcp_connection.c:455-564 | duplicate, future and contiguous payloads as the code treats them, both failure paths included |
| TcpConnection.Connection.ProcessFin | src/tcp_connection.c:566-633 | a FIN is taken, made pending (the earliest wins) or ignored |
| TcpConnection.Connection.ProcessAck | src/tcp_connection.c:777-815 | a new acknowledgment within what was sent moves send_unacknowledged and resets the timer |
| TcpConnection.Connection.OnSegment | src/tcp_connection.c:733-947 | the whole new connection and return value of on_segment |
| TcpConnection.Connection.BuildSyn | src/tcp_connection.c:686-731 | the segment, the sequence number it takes and the refusal outside CLOSED |
| TcpConnection.Connection.BuildAck | src/tcp_connection.c:949-973 | an ACK for the current counters, in any state, changing nothing |
| TcpConnection.Connection.BuildData | src/tcp_connection.c:975-1023 | the segment and new counters, or refusal of empty, oversized or untimely data |
| TcpConnection.Connection.BuildFin | src/tcp_connection.c:1025-1086 | the FIN, its sequence number and the move to FIN_WAIT_1 or LAST_ACK |
| TcpConnection.Connection.Tick | src/tcp_connection.c:1088-1171 | saturating clock, retransmission with doubled and capped timeout, or RESET after the limit |
| TcpConnection.Connection.Read | src/tcp_connection.c:1173-1224 | the oldest ready bytes are copied out, the rest move down, the caller's buffer is otherwise kept |
| TcpInvariants.PromoteReachesFixpoint | src/tcp_connection.c:342-453 | on success every remaining slot starts strictly after receive_next; always the counter counts the slots and ready buffer, history and receive_next advanced by the same bytes |
| TcpInvariants.AckStaysInside | src/tcp_connection.c:777-791 | an accepted acknowledgment lies between send_unacknowledged and send_next, through wrap-around |
| TcpInvariants.StepKeepsInv | src/tcp_connection.c:635-1224 | every call with any arguments and any segment keeps slot bookkeeping, accounting, send side and timer invariants |
| TcpRuns.OpenedIs | src/tcp_connection.c:635-684 | every field a connection starts with, in numbers |
| TcpRuns.AccountingUnbroken | src/tcp_connection.c:87-130 | in every reachable state, any peer: receive_next is IRS+1+bytes+FINs mod 2^32, bytes appended are bytes read plus bytes ready, no FIN counted in ESTABLISHED, FIN_WAIT_1, FIN_WAIT_2, and reassembly_count counts the slots |
| TcpRuns.SendSideSound | src/tcp_connection.c:1011-1083 | in every reachable state at most 65515 is outstanding; outside RESET a segment is held exactly while something is, and it ends at send_next and covers send_unacknowledged; FIN_WAIT_2 has nothing outstanding; RTO is 1000·2^j, j<=4, above the elapsed time |
| TcpRuns.ReadsOldest | src/tcp_connection.c:1173-1224 | a read hands over the oldest min(asked, ready) bytes and leaves the rest |
| TcpRuns.ReadTwice | src/tcp_connection.c:1173-1224 | two reads hand over what one of both sizes would |
| TcpReassembly.OffIsPlace | src/tcp_connection.c:10-16 | within half the sequence space the offset the proofs give a sequence number is the only one it can have |
| TcpReassembly.PayloadRefinesUnion | src/tcp_connection.c:455-564 | process_payload refines set union: offsets held afterwards are those before and the payload's own; bytes stay those of an honest stream even on failure |
| TcpRuns.ReassemblyRefinesSet | src/tcp_connection.c:342-564 | for any peer, until a FIN is consumed or a -2: bytes received is the least offset missing from everything accepted, and prefix plus slots is exactly that set (window hypothesis) |
| TcpRuns.PayloadAfterFinIsTaken | src/tcp_connection.c:823-841 | an in-order payload behind a consumed FIN is appended in CLOSE_WAIT and LAST_ACK, and the number of bytes received becomes an accepted offset |
| TcpPastFin.HarmIsAtTheFin | src/tcp_connection.c:455-564 | with one FIN consumed a payload does harm exactly when it touches the FIN's offset or the one right behind it |
| TcpPastFin.RefinementStep | src/tcp_connection.c:823-911 | one accepted segment in CLOSE_WAIT or LAST_ACK, any peer, whatever is buffered: the set refinement survives it if and only if its payload is harmless: empty, beyond the receive position, or up to it and all held already |
| TcpPastFin.RefinementExactly | src/tcp_connection.c:342-947 | for any peer and any number of FINs, over every run without a -2 or a reset: the connection refines the set of accepted offsets if and only if every payload processed past a FIN was harmless (window hypothesis) |
| TcpPastFin.OneFinExactly | src/tcp_connection.c:342-947 | with at most one FIN: if and only if no payload since the FIN touched its offset or the next |
| TcpStream.StreamSafety | src/tcp_connection.c:733-947 | honest peer, any loss, duplication, reordering, overlap and wrap: bytes read followed by bytes ready are exactly the first n of the stream and receive_next counts them, also right after a -2 |
| TcpStream.FinOnceAtEnd | src/tcp_connection.c:566-633 | the FIN is consumed at most once and only when n is the stream's length; a pending one is strictly ahead; when all bytes and a FIN were accepted it has been consumed and the state has moved on |
| TcpStream.HonestReassembly | src/tcp_connection.c:342-564 | against an honest peer the set refinement holds through the FIN and after it |
| TcpStream.OrderIsInvisible | src/tcp_connection.c:342-564 | two runs that accepted the same offsets, in any order, delivered the same bytes and FINs |
| TcpStream.ClosedRestarts | src/tcp_connection.c:686-731 | after an honest close the connection is clean, so build_syn starts a run to which all of this applies again |
| TcpExchange.WholeStreamArrives | src/tcp_connection.c:635-947 | for every stream that fits the ready buffer, all ports and sequence numbers: from tcp_connection_init, handshake and one segment with stream and FIN are an allowed, honest run that ends with the stream ready and the FIN taken, so the hypotheses of the stream theorems are met |
| TcpExchange.LatePayloadBreaks | src/tcp_connection.c:823-841 | for every such stream, in CLOSE_WAIT and after our own FIN in LAST_ACK: one payload right behind the FIN is delivered as if it continued the stream, and the set refinement that held until then fails |
| TcpRoom.RefusedExactly | src/tcp_connection.c:200-268 | a segment that reaches payload processing returns -2 if and only if there is no room: ahead of the position, it is longer than 2048 bytes, or all 16 slots are used and none contains it; at the position, the next 32768-ready+1 bytes are all in it or in slots; otherwise 0 |
| TcpRoom.RefusedExactlyInRuns | src/tcp_connection.c:342-564 | the same at every point of every run that has not seen a -2, for any peer and any distance |
| TcpRoom.DeliversContiguous | src/tcp_connection.c:342-564 | an accepted segment appends exactly the bytes that have become contiguous: all up to the first that is in neither the payload nor a slot, and none when the payload is old or ahead |
| TcpRoom.FutureIsHeld | src/tcp_connection.c:200-268 | with a free slot, 1 to 2048 bytes ahead of the position are accepted and held |
| TcpDuplicates.FeedTwice | src/tcp_connection.c:733-947 | a segment that returned 0 leaves the whole connection unchanged when fed again |
| TcpDuplicates.DuplicatesAreHarmless | src/tcp_connection.c:155-189 | so in every state reached without a -2, from any peer and at any distance |
| TcpStates.StepFollowsEdges | src/tcp_connection.c:823-947 | each call moves along an edge of the code's state machine; ESTABLISHED is entered exactly by the call that returns 1; our side is closed with nothing outstanding |
| TcpStates.RunFollowsEdges | src/tcp_connection.c:686-947 | the same at every point of every run |
| TcpStates.ResetIsFinal | src/tcp_connection.c:757-772 | no run leaves RESET |
| TcpStates.ClosedOnlyAfterFinAck | src/tcp_connection.c:913-944 | FIN_WAIT_2 and the return to CLOSED come only after an accepted acknowledgment equal to send_next of our outstanding FIN, earlier in the same run |
| TcpArrival.RstResets | src/tcp_connection.c:753-772 | a RST of this connection resets it in any state, returns 0 and empties slots, ready buffer and pending FIN |
| TcpArrival.HandshakeExactly | src/tcp_connection.c:823-868 | in SYN_SENT a SYN+ACK of everything sent opens the connection at its sequence number + 1 and returns 1; another SYN+ACK returns -1, the rest 0, and nothing is received |
| TcpArrival.OthersStay | src/tcp_connection.c:870-883 | CLOSED, TIME_WAIT and RESET take no payload and no FIN |
| TcpArrival.AckMoves | src/tcp_connection.c:777-821 | exactly the acknowledgments of something outstanding move send_unacknowledged, and they clear retries and elapsed; of everything, they restore RTO 1000 and drop the segment held; of a part, they keep both; the window is stored |
| TcpArrival.FinsExactly | src/tcp_connection.c:296-334 | in every run without a -2, any peer: a FIN is consumed exactly when this segment's or the pending one is at the position after the payload; otherwise the earliest known waits |
| TcpArrival.ReceiveMoves | src/tcp_connection.c:566-633 | an accepted segment moves the state exactly so: ESTABLISHED to CLOSE_WAIT, FIN_WAIT_1 and FIN_WAIT_2 to TIME_WAIT with the peer's FIN, FIN_WAIT_1 to FIN_WAIT_2 and LAST_ACK to CLOSED once nothing is outstanding; a call that returns -2 keeps state and FINs |
| TcpArrival.FinOutInRuns | src/tcp_connection.c:913-944 | in every run without a -2 our FIN is outstanding in FIN_WAIT_1 and LAST_ACK |
| TcpArrival.FinAckCloses | src/tcp_connection.c:913-944 | there an acknowledgment equal to send_next closes our side: FIN_WAIT_1 to FIN_WAIT_2, or TIME_WAIT with the peer's FIN, LAST_ACK to CLOSED; any other accepted segment does not |
| TcpTimer.BackoffBound | src/tcp_connection.c:1088-1171 | with a silent peer exactly 5 identical copies precede RESET, no earlier than 47000 ms and no later than 47000+6(d-1) ms for ticks of at most d; until then less than 47000+5(d-1) ms have passed |
| TcpTimer.TickExactly | src/tcp_connection.c:1088-1171 | 1 with the segment held exactly when the timeout is reached and fewer than 5 copies went out, the timeout doubled up to 16000; -1 and RESET after the fifth; 0 otherwise |
| TcpTimer.IdleFromInit | src/tcp_connection.c:793-815 | in every reachable state outside RESET with nothing outstanding, RTO is 1000 and elapsed and retries are 0 |
| TcpTimer.BackoffInRuns | src/tcp_connection.c:1088-1171 | so the backoff bound holds of every SYN, data or FIN that a run sends with nothing outstanding: at most five copies of the very segment handed out |
| TcpSending.SendsOneStream | src/tcp_connection.c:949-1171 | every segment handed out, retransmissions included, is a slice of the bytes given to build_data at sequence ISS+1+offset, a FIN only at the end, and send_next counts SYN, stream and FIN |
| TcpSending.SliceIsHonest | src/tcp_connection.c:455-471 | such a slice, arriving within the window at a connection that took its SYN, meets the honest-peer hypothesis |
| TcpSending.WireIsHonest | src/tcp_connection.c:949-1171 | so every segment a run hands out has a place in the stream near which any receiver that took the SYN finds it in the window and honest |
| TcpSending.EndToEnd | src/tcp_connection.c:635-1224 | a run that sends and a run that receives what the first handed out, lost, repeated, delayed and reordered at will: the receiver has read or ready a prefix of what the sender's application gave, and takes the FIN only when the sender ended and all is in; streams shorter than the window need no window hypothesis |
| TcpSending.OlderNeverAgain | src/tcp_connection.c:1011-1083 | from an accepted build_data or build_fin on, everything handed out, retransmissions included, is a slice of the bytes given from that call on |
| TcpSending.ResentIsNew | src/tcp_connection.c:1088-1171 | and every segment a later tick sends again was handed out at that call or after it |
| TcpSending.HeldOnlyIfAllAcknowledged | src/tcp_connection.c:1011-1083 | no sequence number outstanding before build_data or build_fin is held for retransmission after it, so all are exactly when send_unacknowledged was send_next |
| TcpSending.HeadersInRuns | src/tcp_connection.c:686-1086 | every segment a run builds: exactly when the state and the payload allow it, from the local to the remote port at send_next, with its flags, acknowledging IRS+1+bytes+FINs |
| TcpSending.SendMoves | src/tcp_connection.c:686-1086 | the segment handed out is held, what was outstanding is given up, send_next moves by its length, elapsed restarts and the state moves; a refused send changes nothing |
| TcpSending.PureAckAtEnd | src/tcp_connection.c:949-973 | a pure acknowledgment carries the number after SYN, stream and FIN |
| TcpSending.WireStamped | src/tcp_connection.c:949-1171 | every segment handed out, retransmissions included, goes between the two ports of the connection |
| Checksum.OnesSumIsResidue | src/ipv4.c:20-63 | the one's-complement sum is 0 for 0 and otherwise ((n-1) mod 65535)+1 |
| Checksum.FoldKeepsSum | src/ipv4.c:42-60 | one fold keeps the one's-complement sum of any 32-bit accumulator and ends the carry of a 17-bit one |
| Checksum.ChecksumAdd | src/tcp.c:57-67 | adding a word to a folded sum gives the folded one's-complement sum |
| Checksum.AddBytes | src/tcp.c:402-438 | for data of any length the accumulator stays at most 0xFFFF and is the one's-complement sum of the words |
| Checksum.Finish | src/tcp.c:69-82 | for any 32-bit sum the fold loop terminates with the complement of the one's-complement sum |
| Checksum.Compute | src/ipv4.c:20-63 | the checksum of section 1 of RFC 1071, odd lengths included |
| Checksum.WorkedExample | src/ipv4.c:20-63 | the worked example of section 3 of RFC 1071, and an odd byte counts as a high byte |
| Checksum.SealedIsValid | src/ipv4.c:288-294 | storing a word in a zero field makes the data valid exactly when it is the complement of the sum, or its 0xFFFF form |
| Checksum.WordChangeDetected | src/ipv4.c:109-111 | in valid data, not zero elsewhere, a replaced aligned word goes unnoticed exactly when it is the same or the pair is {0, 0xFFFF} |
| Transport.Sum | src/tcp.c:440-486 | the sum over pseudo-header and segment is the one's-complement sum of their concatenation |
| Transport.PseudoBytes | src/tcp.c:440-486 | what is summed is source, destination, 0, protocol, length in network byte order, and the data |
| TcpWire.Serialize | src/tcp.c:277-400 | writes exactly the encoding when the segment is consistent and fits, otherwise returns 0 and leaves the buffer alone |
| TcpWire.ParseEncode | src/tcp.c:160-275 | parsing a serialized segment gives it back, field by field |
| TcpWire.EncodeParse | src/tcp.c:277-400 | serializing a parsed segment reproduces its bytes but for the low nibble of byte 12, exactly when the length is at most 65535 |
| TcpWire.FlagsRoundTrip | include/tcp.h:13-20 | flags octet and flag record determine each other |
| TcpWire.FlagBits | include/tcp.h:13-20 | FIN is 1, SYN 2, RST 4, PSH 8, ACK 16, URG 32, ECE 64, CWR 128 |
| TcpWire.Layout | src/tcp.c:277-400 | the place of every field in the encoding, byte by byte |
| TcpWire.ParseCodes | src/tcp.c:160-275 | what tcp_parse accepts and the error code of everything else |
| TcpWire.ChecksumValid | src/tcp.c:581-611 | accepts exactly lengths 20 to 65535 whose checksum over pseudo-header and segment is zero |
| TcpWire.ValidBytes | src/tcp.c:581-611 | a segment is valid exactly when its length is 20 to 65535 and the checksum over addresses, 0, 6, length and segment is zero |
| TcpWire.ChecksumOf | src/tcp.c:488-526 | a nonzero word that seals the segment, zero sent as 0xFFFF, and 0 exactly for unacceptable lengths |
| TcpWire.SerializeIpv4 | src/tcp.c:528-579 | what it writes passes tcp_checksum_ipv4_valid and parses back to the segment, for all contents and lengths |
| TcpWire.ChangeRejected | src/tcp.c:581-611 | replacing one 16-bit word of a valid segment is rejected unless it is the same word or the pair is {0x0000, 0xFFFF} |
| TcpWire.LastByteChangeRejected | src/tcp.c:425-435 | a changed last byte of a valid segment of odd length is always rejected |
| Ipv4.Serialize | src/ipv4.c:182-305 | writes exactly the packet with computed length and checksum, or returns 0 and leaves the buffer alone |
| Ipv4.Layout | src/ipv4.c:182-305 | the place of every field in the header, byte by byte, and of the payload behind it |
| Ipv4.ParseCodes | src/ipv4.c:65-180 | what ipv4_parse accepts and the error code of everything else |
| Ipv4.HeaderSelfValidates | src/ipv4.c:288-294 | the header written passes the checksum test of ipv4_parse |
| Ipv4.ParseEncode | src/ipv4.c:65-180 | parsing a serialized packet, with any padding behind it, gives it back with length and checksum filled in |
| Ipv4.EncodeParse | src/ipv4.c:182-305 | serializing an accepted packet reproduces it up to its total length exactly when its checksum field is not 0xFFFF |
| Udp.Serialize | src/udp.c:183-248 | writes exactly the datagram, or returns 0 and leaves the buffer alone |
| Udp.Layout | src/udp.c:183-248 | the place of every field in the datagram, byte by byte |
| Udp.ChecksumOf | src/udp.c:250-356 | a nonzero word that seals the datagram, and 0 exactly for unacceptable lengths |
| Udp.ChecksumValid | src/udp.c:411-523 | accepts exactly datagrams with no checksum or with checksum zero over pseudo-header and datagram |
| Udp.ValidBytes | src/udp.c:411-523 | a datagram is valid exactly when it has 8 bytes and its checksum field is zero or the checksum over addresses, 0, 17, length and datagram is |
| Udp.SerializeIpv4 | src/udp.c:358-409 | what it writes carries a checksum and passes udp_checksum_ipv4_valid |
| Udp.ChangeRejected | src/udp.c:411-523 | replacing one word is rejected unless it is the same, the pair is {0, 0xFFFF}, or the checksum is switched off |
| Icmp.Serialize | src/icmp.c:135-202 | writes exactly the echo message with its checksum, or returns 0 and leaves the buffer alone |
| Icmp.Layout | src/icmp.c:135-202 | the place of every field in the message, byte by byte, with the checksum of the rest |
| Icmp.ParseEncode | src/icmp.c:204-267 | a serialized message is accepted by icmp_parse and comes back |
| Icmp.ParseCodes | src/icmp.c:204-267 | what icmp_parse accepts and the error code of everything else |
| Chunked.ParseChunkSize | src/http.c:411-481 | the exact hexadecimal value; well-formed digits are rejected exactly when it exceeds SIZE_MAX |
| Chunked.DigitTable | src/http.c:379-409 | 0-9, a-f and A-F are read as their places in the two tables, and every other character is refused |
| Chunked.WritesIsNumber | src/http.c:411-481 | what is read as a number is exactly what is written for it letter by letter in either table |
| Chunked.NumeralRead | src/http.c:411-481 | a line that is a numeral is read as its value up to 2^64-1 and refused beyond |
| Chunked.OnlyBlanksSqueezed | src/http.c:443-448 | a space and a tab are all that is left out of a size |
| Chunked.DecodeLoop | src/http.c:501-626 | the loop terminates, the room left never underflows, and output and result are those of the recursive decoder, on failure too |
| Chunked.CopiedIsBody | src/http.c:501-626 | the recursive decoder never writes outside the output and writes the decoded body and a NUL exactly when the input decodes and both fit |
| Chunked.DecodeChunkedBody | src/http.c:483-626 | returns the body's length and writes body and NUL exactly when the input decodes and both fit; in any case the front of the output is what was copied and the rest is left alone |
| Chunked.ChunksCopied | src/http.c:483-626 | whatever comes behind well-framed chunks, their data are in the output, on failure too |
| Chunked.BrokenChunk | src/http.c:571-617 | a chunk that is not closed, or has no room, ends the call; its data are copied first if they are there and fit |
| Chunked.BrokenLine | src/http.c:518-559 | without a line that is read as a size nothing more is copied |
| Chunked.FramingDecodes | src/http.c:483-626 | nonempty chunks with sizes in either letter case, blanks among the digits and any CRLF-free extensions, any spelling of the last size and any trailer decode to their concatenation |
| Chunked.DecodeFrame | src/http.c:483-626 | the same for any rule that reads size lines |
| Chunked.DecodedIsFramed | src/http.c:483-626 | for any rule that reads size lines, only framed input decodes: the result is the concatenation of slices whose lines the rule reads as their lengths |
| Chunked.LineIsSpelled | src/http.c:411-481 | a line is read as a size only if it is digits, blanks among them ignored, that spell it, and an optional extension |
| Chunked.NumeralIffNoBlanks | src/http.c:443-448 | and its digits are a plain numeral exactly when there are no blanks among them |
| Chunked.DecodedIsSpelled | src/http.c:483-626 | the other half of FramingDecodes, over the same grammar: whatever decodes is such a framing of the data it decodes to |
| Chunked.AnyBodyDecodes | src/http.c:483-626 | every body cut into nonempty pieces, with sizes written letter by letter in either case, each followed by CRLF, data and CRLF, comes back whole |
| Chunked.DecodedFits | tools/netstack_http.c:854-876 | a body is shorter than its input, so an output of input_len+1 bytes is never too small |
| DnsName.SkipName | src/dns.c:49-122 | computes the recursive skipper; every read is inside the data and the offset strictly advances |
| DnsName.GrammarIsSkipped | src/dns.c:49-122 | a name of at most 127 labels ended by the root or a pointer is skipped to its end |
| DnsName.SkippedIsGrammar | src/dns.c:49-122 | and whatever is skipped is such a name |
| DnsName.JoinSplit | src/dns.c:183-245 | the labels of a host name join back to it |
| DnsName.SplitAtStops | src/dns.c:183-245 | a host name is split at every full stop and nowhere else |
| DnsQuery.BuildAQuery | src/dns.c:124-284 | succeeds exactly for names of 1 to 253 bytes with labels of 1 to 63 and room for length+18, returns that length and writes the query with zeros behind it; refusals leave the buffer alone, or with the header and the labels before the first that is bad or does not fit |
| DnsQuery.QueryReadsBack | src/dns.c:124-284 | the labels of the query decode to the host name, and the skipper stops 4 bytes before its end, 127 labels included |
| DnsQuery.QueryBytes | src/dns.c:124-284 | the query byte by byte: identifier, recursion desired, one question; labels, root, type A, class IN |
| DnsResponse.ParseResponse | src/dns.c:286-481 | equals the recursive meaning of a message, error codes included: the first 16 records of type A, class IN and 4 bytes, in order, with their TTLs |
| DnsResponse.QuestionsSkipped | src/dns.c:352-389 | any number of questions, one after the other, are skipped to their end |
| DnsResponse.HeaderMeans | src/dns.c:286-389 | the header of a response bit by bit, and the error code of everything that is refused |
| DnsResponse.AddressesAre | src/dns.c:391-478 | the answers are the records of type 1, class 1 and four bytes, in order, up to sixteen |
| DnsResponse.RecordBytes | src/dns.c:391-478 | a record byte by byte behind its name |
| DnsResponse.ReadAnswers | src/dns.c:391-478 | walks every record and keeps the first sixteen addresses |
| DnsResponse.RecordsReadBack | src/dns.c:391-478 | records laid out one after the other are read back in order |
| DnsResponse.ReplyUnderstood | src/dns.c:286-481 | a reply that echoes our question and lists any records means exactly its first sixteen addresses |
| DnsResponse.ReplyBytes | src/dns.c:286-481 | the reply of ReplyUnderstood byte by byte |

## Left out

- `src/netdev_linux.c`, the programs under `tools/`, `src/ethernet.c` and `src/arp.c`: sockets, clocks, printing and fixed-layout copies.
- `http_build_get_request`, `http_parse_response` and `http_response_is_chunked`: text handling through the C library.
- `tcp_connection_readable`, `tcp_connection_reassembly_count`, `ipv4_build`, `udp_build`, `udp_parse`, the ICMP builders and all name and string functions: easy members.
- NULL arguments: parameters are non-null, and addresses have four bytes as their C arrays do.
- Flow control: `remote_window` is stored and never used by the code.
- Delivery of several outstanding sent segments, RTT estimation, CLOSING and the TIME_WAIT timeout: the code has none of them.
- `size_t` arithmetic other than the chunk size: lengths are unbounded, since every length is bounded by an object in memory; `SIZE_MAX` is that of a 64-bit machine.
- Host names and HTTP text are sequences of bytes or characters with their length; the C strings end at a NUL.
- Udp.ChecksumValid: beyond 65535 bytes the length enters the sum modulo 65536, as the code's cast does.
