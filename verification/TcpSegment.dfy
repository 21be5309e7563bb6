/** The TCP segment value of include/tcp.h and the plain constructor `tcp_build`. */
module TcpSegment {
  import opened Bytes

  const MIN_HEADER_LEN: int := 20
  const MAX_PACKET_LEN: int := 65535
  const MAX_PAYLOAD_LEN: int := 65515

  /** The flags octet, least significant bit first. */
  datatype Flags = Flags(fin: bool, syn: bool, rst: bool, psh: bool, ack: bool, urg: bool, ece: bool, cwr: bool)

  const NO_FLAGS := Flags(false, false, false, false, false, false, false, false)
  const SYN := NO_FLAGS.(syn := true)
  const ACK := NO_FLAGS.(ack := true)
  const PSH_ACK := NO_FLAGS.(psh := true, ack := true)
  const FIN_ACK := NO_FLAGS.(fin := true, ack := true)

  /** `options` and `payload` hold the first `options_len` and `payload_len` bytes of the C arrays. */
  datatype SegmentFields = SegmentFields(
    sourcePort: U16,
    destinationPort: U16,
    seqNumber: U32,
    ackNumber: U32,
    dataOffset: U8,
    flags: Flags,
    window: U16,
    checksum: U16,
    urgent: U16,
    options: seq<U8>,
    payload: seq<U8>)

  /** The C structure has room for 40 option bytes and 65515 payload bytes. */
  type Segment = s: SegmentFields | |s.options| <= 40 && |s.payload| <= MAX_PAYLOAD_LEN
    witness SegmentFields(0, 0, 0, 0, 0, NO_FLAGS, 0, 0, 0, [], [])

  /** Sequence numbers a segment occupies: its payload, plus one for SYN and one for FIN. */
  function SeqLength(s: Segment): nat {
    |s.payload| + (if s.flags.syn then 1 else 0) + (if s.flags.fin then 1 else 0)
  }

  /** `tcp_build`: fails only on a payload that does not fit. */
  function Build(sourcePort: U16, destinationPort: U16, seqNumber: U32, ackNumber: U32,
                 flags: Flags, window: U16, payload: seq<U8>): Option<Segment>
  {
    if |payload| > MAX_PAYLOAD_LEN then None
    else Some(SegmentFields(sourcePort, destinationPort, seqNumber, ackNumber, 5, flags, window, 0, 0, [], payload))
  }
}
