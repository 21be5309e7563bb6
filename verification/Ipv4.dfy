/** src/ipv4.c: IPv4 packets on the wire. */
module Ipv4 {
  import opened Bytes
  import opened Checksum
  import opened WireBuffer

  const MIN_HEADER_LEN: int := 20
  const MAX_PACKET_LEN: int := 65535
  const MAX_PAYLOAD_LEN: int := 65515

  datatype Packet = Packet(
    version: U8,
    ihl: U8,
    dscp: U8,
    ecn: U8,
    totalLength: U16,
    identification: U16,
    flags: U8,
    fragmentOffset: U16,
    ttl: U8,
    protocol: U8,
    headerChecksum: U16,
    source: seq<U8>,
    destination: seq<U8>,
    options: seq<U8>,
    payload: seq<U8>)

  /** Addresses are 4-byte arrays in the C structure. */
  predicate Addressed(p: Packet) {
    |p.source| == 4 && |p.destination| == 4
  }

  function TotalLength(p: Packet): nat {
    p.ihl as int * 4 + |p.payload|
  }

  /** What ipv4_serialize accepts. */
  predicate Encodable(p: Packet) {
    && Addressed(p)
    && p.version == 4
    && 5 <= p.ihl <= 15
    && |p.options| == p.ihl as int * 4 - MIN_HEADER_LEN
    && |p.payload| <= MAX_PAYLOAD_LEN
    && TotalLength(p) <= MAX_PACKET_LEN
  }

  /** The fields that share a byte fit in their bits; ipv4_serialize masks them if they do not. */
  predicate InRange(p: Packet) {
    p.dscp < 64 && p.ecn < 4 && p.flags < 8 && p.fragmentOffset < 0x2000
  }

  function Fragmentation(p: Packet): U16 {
    p.flags % 8 * 0x2000 + p.fragmentOffset % 0x2000
  }

  /** The header up to its checksum. */
  function FirstFields(p: Packet): seq<U8>
    requires Encodable(p)
  {
    [p.version * 16 + p.ihl] + [p.dscp % 64 * 4 + p.ecn % 4]
    + BE16(TotalLength(p)) + BE16(p.identification) + BE16(Fragmentation(p)) + [p.ttl] + [p.protocol]
  }

  /** The header with `ck` in its checksum field. */
  function Header(p: Packet, ck: U16): seq<U8>
    requires Encodable(p)
  {
    FirstFields(p) + BE16(ck) + p.source + p.destination + p.options
  }

  function Encode(p: Packet): seq<U8>
    requires Encodable(p)
  {
    Header(p, InternetChecksum(Header(p, 0))) + p.payload
  }

  method WriteFirstFields(p: Packet, buffer: array<U8>)
    requires Encodable(p) && TotalLength(p) <= buffer.Length
    modifies buffer
    ensures WrittenAt(old(buffer[..]), buffer[..], 0, FirstFields(p))
  {
    ghost var start := buffer[..];
    ghost var front := [p.version * 16 + p.ihl] + [p.dscp % 64 * 4 + p.ecn % 4];
    Write8(buffer, 0, p.version * 16 + p.ihl);
    Write8(buffer, 1, p.dscp % 64 * 4 + p.ecn % 4);
    Write16Behind(buffer, 2, TotalLength(p), start, front);
    front := front + BE16(TotalLength(p));
    Write16Behind(buffer, 4, p.identification, start, front);
    front := front + BE16(p.identification);
    Write16Behind(buffer, 6, Fragmentation(p), start, front);
    front := front + BE16(Fragmentation(p));
    CopyBehind(buffer, 8, [p.ttl], start, front);
    CopyBehind(buffer, 9, [p.protocol], start, front + [p.ttl]);
  }

  method WriteHeader(p: Packet, buffer: array<U8>)
    requires Encodable(p) && TotalLength(p) <= buffer.Length
    modifies buffer
    ensures WrittenAt(old(buffer[..]), buffer[..], 0, Header(p, 0))
  {
    ghost var start, front := buffer[..], FirstFields(p) + BE16(0);
    WriteFirstFields(p, buffer);
    Write16Behind(buffer, 10, 0, start, FirstFields(p));
    CopyBehind(buffer, 12, p.source, start, front);
    CopyBehind(buffer, 16, p.destination, start, front + p.source);
    CopyBehind(buffer, 20, p.options, start, front + p.source + p.destination);
  }

  /** ipv4_serialize: length and checksum are computed, not taken from the packet. */
  method Serialize(p: Packet, buffer: array<U8>) returns (n: nat)
    requires Addressed(p)
    modifies buffer
    ensures n > 0 <==>
              && p.version == 4 && 5 <= p.ihl <= 15 && |p.options| + 20 == p.ihl as int * 4
              && p.ihl as int * 4 + |p.payload| <= 65535 && p.ihl as int * 4 + |p.payload| <= buffer.Length
    ensures n > 0 ==> n == |Encode(p)| && WrittenAt(old(buffer[..]), buffer[..], 0, Encode(p))
    ensures n == 0 ==> buffer[..] == old(buffer[..])
  {
    if p.version != 4 || p.ihl < 5 || p.ihl > 15 {
      return 0;
    }
    var headerLen := p.ihl as int * 4;
    if |p.options| != headerLen - MIN_HEADER_LEN || |p.payload| > MAX_PAYLOAD_LEN {
      return 0;
    }
    var totalLen := headerLen + |p.payload|;
    if totalLen > MAX_PACKET_LEN || buffer.Length < totalLen {
      return 0;
    }
    WriteHeader(p, buffer);
    ghost var plain := buffer[..];
    assert buffer[..headerLen] == Header(p, 0);
    var checksum := Compute(buffer[..headerLen]);
    Write16(buffer, 10, checksum);
    PatchWritten(old(buffer[..]), plain, buffer[..], Header(p, 0), 10, checksum);
    HeaderPatched(p, 0, checksum);
    CopyBehind(buffer, headerLen, p.payload, old(buffer[..]), Header(p, checksum));
    return totalLen;
  }

  lemma HeaderPatched(p: Packet, old': U16, ck: U16)
    requires Encodable(p)
    ensures |Header(p, old')| == p.ihl as int * 4
    ensures Patched(Header(p, old'), 10, ck) == Header(p, ck)
    ensures Read16(Header(p, ck), 10) == ck
  {
    FieldReads16(Header(p, ck), 10, ck);
  }

  /** ipv4_parse. */
  function Parse(data: seq<U8>): Result<Packet> {
    if |data| < MIN_HEADER_LEN then Err(-2)
    else
      var version, ihl := data[0] / 16, data[0] % 16;
      if version != 4 then Err(-3)
      else if ihl < 5 then Err(-4)
      else
        var headerLen := ihl as int * 4;
        var totalLength := Read16(data, 2);
        if |data| < headerLen then Err(-4)
        else if totalLength < headerLen || totalLength > |data| then Err(-5)
        else if InternetChecksum(data[..headerLen]) != 0 then Err(-6)
        else if totalLength - headerLen > MAX_PAYLOAD_LEN then Err(-7)
        else Ok(Packet(version, ihl, data[1] / 4, data[1] % 4, totalLength, Read16(data, 4),
                       Read16(data, 6) / 0x2000, Read16(data, 6) % 0x2000, data[8], data[9], Read16(data, 10),
                       data[12..16], data[16..20], data[20..headerLen], data[headerLen..totalLength]))
  }

  // ------------------------------------------------------------------------ properties

  /** The header ipv4_serialize writes passes the test of ipv4_parse. */
  lemma HeaderSelfValidates(p: Packet)
    requires Encodable(p)
    ensures InternetChecksum(Header(p, InternetChecksum(Header(p, 0)))) == 0
  {
    var ck := InternetChecksum(Header(p, 0));
    HeaderPatched(p, 0, ck);
    HeaderPatched(p, 0, 0);
    SealedIsValid(Header(p, 0), 10, ck);
  }

  lemma HeaderReads(p: Packet, ck: U16, data: seq<U8>)
    requires Encodable(p) && InRange(p) && Header(p, ck) <= data
    ensures |data| >= p.ihl as int * 4
    ensures data[0] / 16 == 4 && data[0] % 16 == p.ihl && data[1] / 4 == p.dscp && data[1] % 4 == p.ecn
    ensures Read16(data, 2) == TotalLength(p) && Read16(data, 4) == p.identification
    ensures Read16(data, 6) / 0x2000 == p.flags && Read16(data, 6) % 0x2000 == p.fragmentOffset
    ensures data[8] == p.ttl && data[9] == p.protocol && Read16(data, 10) == ck
    ensures data[12..16] == p.source && data[16..20] == p.destination && data[20..p.ihl as int * 4] == p.options
  {
    FieldReads16(data, 2, TotalLength(p));
    FieldReads16(data, 4, p.identification);
    FieldReads16(data, 6, Fragmentation(p));
    FieldReads16(data, 10, ck);
  }

  /** Parse after serialize: the packet comes back with length and checksum filled in, padding ignored. */
  lemma ParseEncode(p: Packet, padding: seq<U8>)
    requires Encodable(p) && InRange(p)
    ensures Parse(Encode(p) + padding) ==
              Ok(p.(totalLength := TotalLength(p), headerChecksum := InternetChecksum(Header(p, 0))))
  {
    var ck := InternetChecksum(Header(p, 0));
    var h := Header(p, ck);
    var data := Encode(p) + padding;
    HeaderPatched(p, ck, ck);
    HeaderSelfValidates(p);
    assert data == h + (p.payload + padding);
    HeaderReads(p, ck, data);
    assert data[..|h|] == h;
    assert data[|h|..TotalLength(p)] == p.payload;
  }

  /** What ipv4_parse accepts, and its error codes. */
  lemma ParseCodes(data: seq<U8>)
    ensures match Parse(data)
            case Err(code) =>
              if |data| < 20 then code == -2
              else if data[0] / 16 != 4 then code == -3
              else if data[0] % 16 < 5 || data[0] % 16 * 4 > |data| then code == -4
              else if !(data[0] % 16 * 4 <= 256 * data[2] as int + data[3] <= |data|) then code == -5
              else code == -6 && InternetChecksum(data[..data[0] % 16 * 4]) != 0
            case Ok(p) =>
              && |data| >= 20 && data[0] / 16 == 4 && data[0] % 16 >= 5
              && data[0] % 16 * 4 <= 256 * data[2] as int + data[3] <= |data|
              && InternetChecksum(data[..data[0] % 16 * 4]) == 0
  {
  }

  lemma FirstFieldsReproduced(data: seq<U8>, p: Packet)
    requires Parse(data) == Ok(p)
    ensures Encodable(p) && InRange(p) && TotalLength(p) == p.totalLength
    ensures FirstFields(p) == data[..10]
  {
    FieldReads16(data, 2, p.totalLength);
    FieldReads16(data, 4, p.identification);
    assert Fragmentation(p) == Read16(data, 6);
    FieldReads16(data, 6, Fragmentation(p));
  }

  lemma HeaderReproduced(data: seq<U8>, p: Packet)
    requires Parse(data) == Ok(p)
    ensures Encodable(p) && InRange(p) && TotalLength(p) == p.totalLength
    ensures Header(p, p.headerChecksum) == data[..p.ihl as int * 4]
  {
    FirstFieldsReproduced(data, p);
    FieldReads16(data, 10, p.headerChecksum);
  }

  /**
   Serialize after parse: an accepted packet is reproduced up to its total length exactly when its
   checksum field is not 0xFFFF, which ipv4_serialize would have written as zero.
   */
  lemma EncodeParse(data: seq<U8>)
    requires Parse(data).Ok?
    ensures var p := Parse(data).value;
            && Encodable(p) && p.totalLength <= |data|
            && (Encode(p) == data[..p.totalLength] <==> p.headerChecksum != 0xFFFF)
  {
    var p := Parse(data).value;
    var stored := p.headerChecksum;
    HeaderReproduced(data, p);
    var ck := InternetChecksum(Header(p, 0));
    var h := p.ihl as int * 4;
    HeaderPatched(p, 0, stored);
    HeaderPatched(p, 0, 0);
    HeaderPatched(p, 0, ck);
    SealedIsValid(Header(p, 0), 10, stored);
    HeaderSumPositive(p);
    OnesSumPositive(WordSum(Header(p, 0)));
    assert data[..p.totalLength] == Header(p, stored) + p.payload;
    if ck != stored {
      assert (Header(p, ck) + p.payload)[..h] == Header(p, ck);
      assert (Header(p, stored) + p.payload)[..h] == Header(p, stored);
    }
  }

  lemma HeaderSumPositive(p: Packet)
    requires Encodable(p)
    ensures WordSum(Header(p, 0)) > 0
  {
    assert Header(p, 0)[0] == p.version * 16 + p.ihl;
  }

  /** Where the fields are in the header, before its checksum is stored in bytes 10 and 11. */
  lemma Layout(p: Packet, ck: U16)
    requires Encodable(p) && InRange(p)
    ensures var n := 4 * p.ihl as int + |p.payload|;
            Header(p, ck) ==
              [64 + p.ihl, 4 * p.dscp + p.ecn, n / 256, n % 256, p.identification / 256, p.identification % 256,
               32 * p.flags + p.fragmentOffset / 256, p.fragmentOffset % 256, p.ttl, p.protocol, ck / 256, ck % 256]
              + p.source + p.destination + p.options
    ensures Encode(p) == Header(p, InternetChecksum(Header(p, 0))) + p.payload
  {
    FirstBytes(p);
  }

  lemma FirstBytes(p: Packet)
    requires Encodable(p) && InRange(p)
    ensures var n := 4 * p.ihl as int + |p.payload|;
            FirstFields(p) ==
              [64 + p.ihl, 4 * p.dscp + p.ecn, n / 256, n % 256, p.identification / 256, p.identification % 256,
               32 * p.flags + p.fragmentOffset / 256, p.fragmentOffset % 256, p.ttl, p.protocol]
  {
    assert BE16(Fragmentation(p)) == [32 * p.flags + p.fragmentOffset / 256, p.fragmentOffset % 256] by {
      FragmentBytes(p.flags, p.fragmentOffset);
    }
    assert [p.version * 16 + p.ihl] + [p.dscp % 64 * 4 + p.ecn % 4] == [64 + p.ihl, 4 * p.dscp + p.ecn] by {
      InBits(p.dscp, p.ecn);
    }
    var n := 4 * p.ihl as int + |p.payload|;
    assert BE16(TotalLength(p)) == [n / 256, n % 256];
  }

  lemma InBits(dscp: U8, ecn: U8)
    requires dscp < 64 && ecn < 4
    ensures dscp % 64 == dscp && ecn % 4 == ecn
  {
  }

  lemma FragmentBytes(flags: U8, offset: U16)
    requires flags < 8 && offset < 0x2000
    ensures (flags as int * 0x2000 + offset) / 256 == 32 * flags as int + offset / 256
    ensures (flags as int * 0x2000 + offset) % 256 == offset % 256
  {
  }
}
