/** src/tcp.c: TCP segments on the wire and their checksum over the IPv4 pseudo-header. */
module TcpWire {
  import opened Bytes
  import opened Checksum
  import opened TcpSegment
  import opened Transport
  import opened WireBuffer

  // ------------------------------------------------------------------------ flags

  /** The number with these bits, least significant first. */
  function FromBits(bits: seq<bool>): nat {
    if bits == [] then 0 else (if bits[0] then 1 else 0) + 2 * FromBits(bits[1..])
  }

  function ToBits(x: nat, n: nat): (bits: seq<bool>)
    ensures |bits| == n
  {
    if n == 0 then [] else [x % 2 == 1] + ToBits(x / 2, n - 1)
  }

  function Pow2(n: nat): nat {
    if n == 0 then 1 else 2 * Pow2(n - 1)
  }

  lemma {:induction false} BitsOfNumber(bits: seq<bool>)
    ensures ToBits(FromBits(bits), |bits|) == bits && FromBits(bits) < Pow2(|bits|)
  {
    if bits != [] {
      BitsOfNumber(bits[1..]);
      assert FromBits(bits) / 2 == FromBits(bits[1..]);
    }
  }

  lemma {:induction false} NumberOfBits(x: nat, n: nat)
    requires x < Pow2(n)
    ensures FromBits(ToBits(x, n)) == x
  {
    if n > 0 {
      NumberOfBits(x / 2, n - 1);
      assert ToBits(x, n)[1..] == ToBits(x / 2, n - 1);
    }
  }

  lemma Octet()
    ensures Pow2(8) == 0x100
  {
    assert Pow2(4) == 16;
  }

  function FlagsOctet(f: Flags): U8 {
    var bits := [f.fin, f.syn, f.rst, f.psh, f.ack, f.urg, f.ece, f.cwr];
    BitsOfNumber(bits);
    Octet();
    FromBits(bits)
  }

  function OctetFlags(x: U8): Flags {
    var b := ToBits(x, 8);
    Flags(b[0], b[1], b[2], b[3], b[4], b[5], b[6], b[7])
  }

  lemma FlagsRoundTrip(f: Flags, x: U8)
    ensures OctetFlags(FlagsOctet(f)) == f
    ensures FlagsOctet(OctetFlags(x)) == x
  {
    BitsOfNumber([f.fin, f.syn, f.rst, f.psh, f.ack, f.urg, f.ece, f.cwr]);
    OctetRoundTrip(x);
  }

  lemma OctetRoundTrip(x: U8)
    ensures FlagsOctet(OctetFlags(x)) == x
  {
    Octet();
    NumberOfBits(x, 8);
    var b := ToBits(x, 8);
    assert b == [b[0], b[1], b[2], b[3], b[4], b[5], b[6], b[7]];
  }

  // -------------------------------------------------------------- serialize and parse

  /** What tcp_serialize accepts. */
  predicate Encodable(seg: Segment) {
    && 5 <= seg.dataOffset <= 15
    && |seg.options| == seg.dataOffset as int * 4 - MIN_HEADER_LEN
    && seg.dataOffset as int * 4 + |seg.payload| <= MAX_PACKET_LEN
  }

  /** Ports and numbers. */
  function FirstFields(seg: Segment): seq<U8> {
    BE16(seg.sourcePort) + BE16(seg.destinationPort) + BE32(seg.seqNumber) + BE32(seg.ackNumber)
  }

  function LastFields(seg: Segment): seq<U8>
    requires 5 <= seg.dataOffset <= 15
  {
    [seg.dataOffset as int * 16] + [FlagsOctet(seg.flags)]
    + BE16(seg.window) + BE16(seg.checksum) + BE16(seg.urgent)
  }

  function FixedHeader(seg: Segment): seq<U8>
    requires 5 <= seg.dataOffset <= 15
  {
    FirstFields(seg) + LastFields(seg)
  }

  function Encode(seg: Segment): seq<U8>
    requires Encodable(seg)
  {
    FixedHeader(seg) + seg.options + seg.payload
  }

  /** tcp_serialize: fills the front of the buffer with the encoding, or returns 0 and leaves it alone. */
  method Serialize(seg: Segment, buffer: array<U8>) returns (n: nat)
    modifies buffer
    ensures n > 0 <==>
              && 5 <= seg.dataOffset <= 15 && |seg.options| + 20 == seg.dataOffset as int * 4
              && seg.dataOffset as int * 4 + |seg.payload| <= 65535
              && seg.dataOffset as int * 4 + |seg.payload| <= buffer.Length
    ensures n > 0 ==> n == |Encode(seg)| && WrittenAt(old(buffer[..]), buffer[..], 0, Encode(seg))
    ensures n == 0 ==> buffer[..] == old(buffer[..])
  {
    if seg.dataOffset < 5 || seg.dataOffset > 15 {
      return 0;
    }
    var headerLen := seg.dataOffset as int * 4;
    if |seg.options| != headerLen - MIN_HEADER_LEN {
      return 0;
    }
    var totalLen := headerLen + |seg.payload|;
    if totalLen > MAX_PACKET_LEN || buffer.Length < totalLen {
      return 0;
    }
    WriteFixedHeader(seg, buffer);
    CopyBehind(buffer, 20, seg.options, old(buffer[..]), FixedHeader(seg));
    CopyBehind(buffer, headerLen, seg.payload, old(buffer[..]), FixedHeader(seg) + seg.options);
    return totalLen;
  }

  method WriteFixedHeader(seg: Segment, buffer: array<U8>)
    requires 5 <= seg.dataOffset <= 15 && 20 <= buffer.Length
    modifies buffer
    ensures WrittenAt(old(buffer[..]), buffer[..], 0, FixedHeader(seg))
  {
    Write16(buffer, 0, seg.sourcePort);
    Write16(buffer, 2, seg.destinationPort);
    Write32(buffer, 4, seg.seqNumber);
    Write32(buffer, 8, seg.ackNumber);
    ghost var half := buffer[..];
    WriteLastFields(seg, buffer);
    AppendWritten(old(buffer[..]), half, buffer[..], FirstFields(seg), LastFields(seg));
  }

  method WriteLastFields(seg: Segment, buffer: array<U8>)
    requires 5 <= seg.dataOffset <= 15 && 20 <= buffer.Length
    modifies buffer
    ensures WrittenAt(old(buffer[..]), buffer[..], 12, LastFields(seg))
  {
    ghost var front := buffer[..12];
    Write8(buffer, 12, seg.dataOffset as int * 16);
    Write8(buffer, 13, FlagsOctet(seg.flags));
    Write16(buffer, 14, seg.window);
    Write16(buffer, 16, seg.checksum);
    Write16(buffer, 18, seg.urgent);
    assert buffer[..20] == front + LastFields(seg);
  }

  /** tcp_parse. */
  function Parse(data: seq<U8>): Result<Segment> {
    if |data| < MIN_HEADER_LEN then Err(-2)
    else
      var dataOffset := data[12] / 16;
      if dataOffset < 5 || dataOffset > 15 then Err(-3)
      else
        var headerLen := dataOffset as int * 4;
        if headerLen > |data| then Err(-3)
        else if |data| - headerLen > MAX_PAYLOAD_LEN then Err(-4)
        else Ok(SegmentFields(
                  Read16(data, 0), Read16(data, 2), Read32(data, 4), Read32(data, 8),
                  dataOffset, OctetFlags(data[13]), Read16(data, 14), Read16(data, 16), Read16(data, 18),
                  data[20..headerLen], data[headerLen..]))
  }

  /** Parsing what was serialized gives the segment back, field by field. */
  lemma ParseEncode(seg: Segment)
    requires Encodable(seg)
    ensures Parse(Encode(seg)) == Ok(seg)
  {
    var data := Encode(seg);
    HeaderReads(seg, data);
    FlagsRoundTrip(seg.flags, 0);
    assert data[20..seg.dataOffset as int * 4] == seg.options;
    assert data[seg.dataOffset as int * 4..] == seg.payload;
  }

  lemma HeaderReads(seg: Segment, data: seq<U8>)
    requires 5 <= seg.dataOffset <= 15 && FixedHeader(seg) <= data
    ensures Read16(data, 0) == seg.sourcePort && Read16(data, 2) == seg.destinationPort
    ensures Read32(data, 4) == seg.seqNumber && Read32(data, 8) == seg.ackNumber
    ensures data[12] == seg.dataOffset as int * 16 && data[13] == FlagsOctet(seg.flags)
    ensures Read16(data, 14) == seg.window && Read16(data, 16) == seg.checksum && Read16(data, 18) == seg.urgent
  {
    FieldReads16(data, 0, seg.sourcePort);
    FieldReads16(data, 2, seg.destinationPort);
    FieldReads32(data, 4, seg.seqNumber);
    FieldReads32(data, 8, seg.ackNumber);
    FieldReads16(data, 14, seg.window);
    FieldReads16(data, 16, seg.checksum);
    FieldReads16(data, 18, seg.urgent);
  }

  /** Serializing what was parsed gives the bytes back, but for the reserved low half of byte 12. */
  lemma EncodeParse(data: seq<U8>)
    requires Parse(data).Ok?
    ensures Encodable(Parse(data).value) <==> |data| <= MAX_PACKET_LEN
    ensures |data| <= MAX_PACKET_LEN ==> Encode(Parse(data).value) == data[12 := data[12] / 16 * 16]
  {
    var seg := Parse(data).value;
    if |data| <= MAX_PACKET_LEN {
      HeaderReproduced(data, seg);
      HeadChanged(data, seg.dataOffset as int * 4, data[12] / 16 * 16);
    }
  }

  /** A byte changed in the header is a byte changed in the whole. */
  lemma HeadChanged(data: seq<U8>, headerLen: nat, b: U8)
    requires 20 <= headerLen <= |data|
    ensures data[12 := b] == data[..20][12 := b] + data[20..headerLen] + data[headerLen..]
  {
  }

  lemma FirstFieldsReproduced(data: seq<U8>, seg: Segment)
    requires Parse(data) == Ok(seg)
    ensures FirstFields(seg) == data[..12]
  {
    FieldReads16(data, 0, seg.sourcePort);
    FieldReads16(data, 2, seg.destinationPort);
    FieldReads32(data, 4, seg.seqNumber);
    FieldReads32(data, 8, seg.ackNumber);
  }

  lemma LastFieldsReproduced(data: seq<U8>, seg: Segment)
    requires Parse(data) == Ok(seg)
    ensures LastFields(seg) == [data[12] / 16 * 16] + data[13..20]
  {
    OctetRoundTrip(data[13]);
    FieldReads16(data, 14, seg.window);
    FieldReads16(data, 16, seg.checksum);
    FieldReads16(data, 18, seg.urgent);
  }

  lemma HeaderReproduced(data: seq<U8>, seg: Segment)
    requires Parse(data) == Ok(seg)
    ensures FixedHeader(seg) == data[..20][12 := data[12] / 16 * 16]
  {
    FirstFieldsReproduced(data, seg);
    LastFieldsReproduced(data, seg);
  }

  /** What tcp_parse accepts, and its error codes. */
  lemma ParseCodes(data: seq<U8>)
    ensures match Parse(data)
            case Err(code) =>
              if |data| < 20 then code == -2
              else if data[12] < 80 || data[12] / 16 * 4 > |data| then code == -3
              else code == -4 && |data| - data[12] / 16 * 4 > 65515
            case Ok(seg) =>
              |data| >= 20 && data[12] >= 80 && data[12] / 16 * 4 <= |data| && |seg.payload| <= 65515
  {
  }

  // ------------------------------------------------------------------------ checksum

  const PROTOCOL: U8 := 6

  /** tcp_checksum_ipv4_valid accepts exactly these. */
  predicate Valid(source: seq<U8>, destination: seq<U8>, data: seq<U8>)
    requires |source| == 4 && |destination| == 4
  {
    MIN_HEADER_LEN <= |data| <= MAX_PACKET_LEN && InternetChecksum(Covered(source, destination, PROTOCOL, data)) == 0
  }

  method ChecksumValid(source: seq<U8>, destination: seq<U8>, data: seq<U8>) returns (ok: bool)
    requires |source| == 4 && |destination| == 4
    ensures ok <==> Valid(source, destination, data)
  {
    if |data| < MIN_HEADER_LEN || |data| > MAX_PACKET_LEN {
      return false;
    }
    var sum := Transport.Sum(source, destination, PROTOCOL, data);
    var result := Finish(sum);
    OnesSumAdds(WordSum(Covered(source, destination, PROTOCOL, data)), 0);
    return result == 0;
  }

  /** tcp_checksum_ipv4: zero is sent as 0xFFFF, and zero means that the length is not acceptable. */
  method ChecksumOf(source: seq<U8>, destination: seq<U8>, data: seq<U8>) returns (r: U16)
    requires |source| == 4 && |destination| == 4
    ensures r != 0 <==> 20 <= |data| <= 65535
    ensures r != 0 ==> Sealing(r, WordSum(Covered(source, destination, PROTOCOL, data)))
  {
    if |data| < MIN_HEADER_LEN || |data| > MAX_PACKET_LEN {
      return 0;
    }
    var sum := Transport.Sum(source, destination, PROTOCOL, data);
    r := Finish(sum);
    OnesSumAdds(WordSum(Covered(source, destination, PROTOCOL, data)), 0);
    if r == 0 {
      r := 0xFFFF;
    }
  }

  /** tcp_serialize_ipv4: the segment with a checksum that the receiver's test accepts. */
  method SerializeIpv4(seg: Segment, source: seq<U8>, destination: seq<U8>, buffer: array<U8>)
    returns (n: nat, ghost ck: U16)
    requires |source| == 4 && |destination| == 4
    modifies buffer
    ensures n > 0 <==>
              && 5 <= seg.dataOffset <= 15 && |seg.options| + 20 == seg.dataOffset as int * 4
              && seg.dataOffset as int * 4 + |seg.payload| <= 65535
              && seg.dataOffset as int * 4 + |seg.payload| <= buffer.Length
    ensures n == 0 ==> buffer[..] == old(buffer[..])
    ensures n > 0 ==>
              var data := Encode(seg.(checksum := ck));
              && n == |data| && WrittenAt(old(buffer[..]), buffer[..], 0, data)
              && Valid(source, destination, data) && Parse(data) == Ok(seg.(checksum := ck))
  {
    var temporary := seg.(checksum := 0);
    ck := 0;
    n := Serialize(temporary, buffer);
    if n == 0 {
      return;
    }
    ghost var plain := buffer[..];
    assert buffer[..n] == Encode(temporary);
    var checksum := ChecksumOf(source, destination, buffer[..n]);
    Write16(buffer, 16, checksum);
    ck := checksum;
    SealedWritten(temporary, source, destination, ck, old(buffer[..]), plain, buffer[..]);
  }

  /** The checksum written over its zero field leaves the sealed segment in the buffer. */
  lemma SealedWritten(seg: Segment, source: seq<U8>, destination: seq<U8>, ck: U16,
                      b0: seq<U8>, b1: seq<U8>, b2: seq<U8>)
    requires |source| == 4 && |destination| == 4
    requires Encodable(seg) && seg.checksum == 0
    requires Sealing(ck, WordSum(Covered(source, destination, PROTOCOL, Encode(seg))))
    requires WrittenAt(b0, b1, 0, Encode(seg)) && WrittenAt(b1, b2, 16, BE16(ck))
    ensures var data := Encode(seg.(checksum := ck));
            && |data| == |Encode(seg)| && WrittenAt(b0, b2, 0, data)
            && Valid(source, destination, data) && Parse(data) == Ok(seg.(checksum := ck))
  {
    PatchWritten(b0, b1, b2, Encode(seg), 16, ck);
    SealedSegment(seg, source, destination, ck);
  }

  /** A segment sealed with its checksum passes the receiver's test and parses back. */
  lemma SealedSegment(seg: Segment, source: seq<U8>, destination: seq<U8>, ck: U16)
    requires |source| == 4 && |destination| == 4
    requires Encodable(seg) && seg.checksum == 0
    requires Sealing(ck, WordSum(Covered(source, destination, PROTOCOL, Encode(seg))))
    ensures var data := Patched(Encode(seg), 16, ck);
            && data == Encode(seg.(checksum := ck))
            && Valid(source, destination, data) && Parse(data) == Ok(seg.(checksum := ck))
  {
    ChecksumStored(seg, ck);
    HeaderReads(seg, Encode(seg));
    SealedVerifies(source, destination, PROTOCOL, Encode(seg), 16, ck);
    ParseEncode(seg.(checksum := ck));
  }

  /** Storing the checksum field in the encoding is encoding the segment with that checksum. */
  lemma ChecksumStored(seg: Segment, ck: U16)
    requires Encodable(seg)
    ensures Patched(Encode(seg), 16, ck) == Encode(seg.(checksum := ck))
  {
  }

  /** Detection: one 16-bit word of a valid segment changed is rejected, unless the pair is {0, 0xFFFF}. */
  lemma ChangeRejected(source: seq<U8>, destination: seq<U8>, data: seq<U8>, at: nat, v: U16)
    requires |source| == 4 && |destination| == 4 && Valid(source, destination, data)
    requires at % 2 == 0 && at + 2 <= |data|
    ensures Valid(source, destination, Patched(data, at, v)) <==> v == Read16(data, at) || BothZero(v, Read16(data, at))
  {
    WordChangeCaught(source, destination, PROTOCOL, data, at, v);
  }

  lemma LastByteChangeRejected(source: seq<U8>, destination: seq<U8>, data: seq<U8>, b: U8)
    requires |source| == 4 && |destination| == 4 && Valid(source, destination, data)
    requires |data| % 2 == 1 && b != data[|data| - 1]
    ensures !Valid(source, destination, data[|data| - 1 := b])
  {
    LastByteChangeCaught(source, destination, PROTOCOL, data, b);
  }

  // ------------------------------------------------------------------- byte by byte

  /** One bit for each flag, FIN lowest. */
  lemma FlagBits(f: Flags)
    ensures FlagsOctet(f) ==
              (if f.fin then 1 else 0) + (if f.syn then 2 else 0) + (if f.rst then 4 else 0)
              + (if f.psh then 8 else 0) + (if f.ack then 16 else 0) + (if f.urg then 32 else 0)
              + (if f.ece then 64 else 0) + (if f.cwr then 128 else 0)
  {
    EightBits(f.fin, f.syn, f.rst, f.psh, f.ack, f.urg, f.ece, f.cwr);
  }

  lemma EightBits(a: bool, b: bool, c: bool, d: bool, e: bool, f: bool, g: bool, h: bool)
    ensures FromBits([a, b, c, d, e, f, g, h]) ==
              (if a then 1 else 0) + (if b then 2 else 0) + (if c then 4 else 0) + (if d then 8 else 0)
              + (if e then 16 else 0) + (if f then 32 else 0) + (if g then 64 else 0) + (if h then 128 else 0)
  {
    FourBits(a, b, c, d, [e, f, g, h]);
    FourBits(e, f, g, h, []);
    assert [e, f, g, h] + [] == [e, f, g, h];
    assert [a, b, c, d] + [e, f, g, h] == [a, b, c, d, e, f, g, h];
  }

  lemma FourBits(a: bool, b: bool, c: bool, d: bool, rest: seq<bool>)
    ensures FromBits([a, b, c, d] + rest) ==
              (if a then 1 else 0) + (if b then 2 else 0) + (if c then 4 else 0) + (if d then 8 else 0) + 16 * FromBits(rest)
  {
    OneBit(a, [b, c, d] + rest);
    OneBit(b, [c, d] + rest);
    OneBit(c, [d] + rest);
    OneBit(d, rest);
    assert [a, b, c, d] + rest == [a] + ([b, c, d] + rest);
    assert [b, c, d] + rest == [b] + ([c, d] + rest);
    assert [c, d] + rest == [c] + ([d] + rest);
  }

  lemma OneBit(b: bool, rest: seq<bool>)
    ensures FromBits([b] + rest) == (if b then 1 else 0) + 2 * FromBits(rest)
  {
    assert ([b] + rest)[1..] == rest;
  }

  /** The bytes of a number in network byte order, half by half. */
  function Network32(v: U32): seq<U8> {
    [v / 65536 / 256, v / 65536 % 256, v % 65536 / 256, v % 65536 % 256]
  }

  lemma Network32IsBE(v: U32)
    ensures Network32(v) == BE32(v)
  {
  }

  /** Where the fields are. */
  lemma Layout(seg: Segment)
    requires Encodable(seg)
    ensures Encode(seg) ==
              [seg.sourcePort / 256, seg.sourcePort % 256, seg.destinationPort / 256, seg.destinationPort % 256]
              + Network32(seg.seqNumber) + Network32(seg.ackNumber)
              + [16 * seg.dataOffset as int, FlagsOctet(seg.flags), seg.window / 256, seg.window % 256,
                 seg.checksum / 256, seg.checksum % 256, seg.urgent / 256, seg.urgent % 256]
              + seg.options + seg.payload
  {
    Network32IsBE(seg.seqNumber);
    Network32IsBE(seg.ackNumber);
    assert LastFields(seg) ==
             [16 * seg.dataOffset as int, FlagsOctet(seg.flags), seg.window / 256, seg.window % 256,
              seg.checksum / 256, seg.checksum % 256, seg.urgent / 256, seg.urgent % 256];
  }

  /** What is summed: addresses, a zero, protocol 6, the length, and the segment. */
  lemma ValidBytes(source: seq<U8>, destination: seq<U8>, data: seq<U8>)
    requires |source| == 4 && |destination| == 4
    ensures Valid(source, destination, data) <==>
              && 20 <= |data| <= 65535
              && InternetChecksum(source + destination + [0, 6, |data| / 256, |data| % 256] + data) == 0
  {
    PseudoBytes(source, destination, 6, data);
  }
}
