/** src/udp.c: UDP datagrams with their optional checksum. */
module Udp {
  import opened Bytes
  import opened Checksum
  import opened Transport
  import opened WireBuffer

  const HEADER_LEN: int := 8
  const MAX_PACKET_LEN: int := 65535
  const PROTOCOL: U8 := 17

  datatype Datagram = Datagram(sourcePort: U16, destinationPort: U16, length: U16, checksum: U16, payload: seq<U8>)

  predicate Encodable(d: Datagram) {
    |d.payload| <= MAX_PACKET_LEN - HEADER_LEN
  }

  function Encode(d: Datagram): seq<U8>
    requires Encodable(d)
  {
    BE16(d.sourcePort) + BE16(d.destinationPort) + BE16(HEADER_LEN + |d.payload|) + BE16(d.checksum) + d.payload
  }

  /** udp_serialize. */
  method Serialize(d: Datagram, buffer: array<U8>) returns (n: nat)
    modifies buffer
    ensures n > 0 <==> |d.payload| <= 65527 && 8 + |d.payload| <= buffer.Length
    ensures n > 0 ==> n == |Encode(d)| && WrittenAt(old(buffer[..]), buffer[..], 0, Encode(d))
    ensures n == 0 ==> buffer[..] == old(buffer[..])
  {
    if |d.payload| > MAX_PACKET_LEN - HEADER_LEN {
      return 0;
    }
    var totalLen := HEADER_LEN + |d.payload|;
    if buffer.Length < totalLen {
      return 0;
    }
    Write16(buffer, 0, d.sourcePort);
    Write16(buffer, 2, d.destinationPort);
    Write16(buffer, 4, totalLen);
    Write16(buffer, 6, d.checksum);
    Copy(buffer, HEADER_LEN, d.payload);
    return totalLen;
  }

  /** udp_checksum_ipv4. */
  method ChecksumOf(source: seq<U8>, destination: seq<U8>, data: seq<U8>) returns (r: U16)
    requires |source| == 4 && |destination| == 4
    ensures r != 0 <==> 8 <= |data| <= 65535
    ensures r != 0 ==> Sealing(r, WordSum(Covered(source, destination, PROTOCOL, data)))
  {
    if |data| < HEADER_LEN || |data| > MAX_PACKET_LEN {
      return 0;
    }
    var sum := Sum(source, destination, PROTOCOL, data);
    r := Finish(sum);
    OnesSumAdds(WordSum(Covered(source, destination, PROTOCOL, data)), 0);
    if r == 0 {
      r := 0xFFFF;
    }
  }

  /**
   udp_checksum_ipv4_valid accepts exactly these. A zero field means no checksum. Beyond 65535
   bytes the length enters the sum modulo 65536.
   */
  predicate Valid(source: seq<U8>, destination: seq<U8>, data: seq<U8>)
    requires |source| == 4 && |destination| == 4
  {
    && |data| >= HEADER_LEN
    && (Read16(data, 6) == 0 || InternetChecksum(Covered(source, destination, PROTOCOL, data)) == 0)
  }

  method ChecksumValid(source: seq<U8>, destination: seq<U8>, data: seq<U8>) returns (ok: bool)
    requires |source| == 4 && |destination| == 4
    ensures ok <==> Valid(source, destination, data)
  {
    if |data| < HEADER_LEN {
      return false;
    }
    if Read16(data, 6) == 0 {
      return true;
    }
    var sum := Sum(source, destination, PROTOCOL, data);
    var result := Finish(sum);
    OnesSumAdds(WordSum(Covered(source, destination, PROTOCOL, data)), 0);
    return result == 0;
  }

  /** udp_serialize_ipv4: what is sent carries a checksum, and it is one the receiver accepts. */
  method SerializeIpv4(d: Datagram, source: seq<U8>, destination: seq<U8>, buffer: array<U8>)
    returns (n: nat, ghost ck: U16)
    requires |source| == 4 && |destination| == 4
    modifies buffer
    ensures n > 0 <==> |d.payload| <= 65527 && 8 + |d.payload| <= buffer.Length
    ensures n == 0 ==> buffer[..] == old(buffer[..])
    ensures n > 0 ==>
              var data := Encode(d.(checksum := ck));
              && n == |data| && WrittenAt(old(buffer[..]), buffer[..], 0, data)
              && Valid(source, destination, data) && Read16(data, 6) != 0
  {
    var temporary := d.(checksum := 0);
    ck := 0;
    n := Serialize(temporary, buffer);
    if n == 0 {
      return;
    }
    ghost var plain := buffer[..];
    assert buffer[..n] == Encode(temporary);
    var checksum := ChecksumOf(source, destination, buffer[..n]);
    Write16(buffer, 6, checksum);
    ck := checksum;
    PatchWritten(old(buffer[..]), plain, buffer[..], Encode(temporary), 6, ck);
    SealedDatagram(temporary, source, destination, ck);
  }

  lemma SealedDatagram(d: Datagram, source: seq<U8>, destination: seq<U8>, ck: U16)
    requires |source| == 4 && |destination| == 4
    requires Encodable(d) && d.checksum == 0
    requires Sealing(ck, WordSum(Covered(source, destination, PROTOCOL, Encode(d))))
    ensures var data := Patched(Encode(d), 6, ck);
            && data == Encode(d.(checksum := ck))
            && Valid(source, destination, data) && Read16(data, 6) == ck
  {
    FieldReads16(Encode(d), 6, 0);
    FieldReads16(Encode(d.(checksum := ck)), 6, ck);
    SealedVerifies(source, destination, PROTOCOL, Encode(d), 6, ck);
  }

  /** A word changed in a datagram that carries a checksum is caught, unless the test is switched off. */
  lemma ChangeRejected(source: seq<U8>, destination: seq<U8>, data: seq<U8>, at: nat, v: U16)
    requires |source| == 4 && |destination| == 4
    requires Valid(source, destination, data) && Read16(data, 6) != 0
    requires at % 2 == 0 && at + 2 <= |data|
    ensures Valid(source, destination, Patched(data, at, v)) <==>
              v == Read16(data, at) || BothZero(v, Read16(data, at)) || (at == 6 && v == 0)
  {
    var after := Patched(data, at, v);
    assert at != 6 ==> Read16(after, 6) == Read16(data, 6);
    assert Read16(after, at) == v;
    WordChangeCaught(source, destination, PROTOCOL, data, at, v);
  }

  // ------------------------------------------------------------------- byte by byte

  /** Where the fields are: ports, length and checksum in network byte order, then the payload. */
  lemma Layout(d: Datagram)
    requires Encodable(d)
    ensures var n := 8 + |d.payload|;
            Encode(d) == [d.sourcePort / 256, d.sourcePort % 256, d.destinationPort / 256, d.destinationPort % 256,
                          n / 256, n % 256, d.checksum / 256, d.checksum % 256] + d.payload
  {
  }

  /** What is summed: addresses, a zero, protocol 17, the length modulo 65536, and the datagram. */
  lemma ValidBytes(source: seq<U8>, destination: seq<U8>, data: seq<U8>)
    requires |source| == 4 && |destination| == 4
    ensures var n := |data| % 0x1_0000;
            Valid(source, destination, data) <==>
              && |data| >= 8
              && ((data[6] == 0 && data[7] == 0)
                  || InternetChecksum(source + destination + [0, 17, n / 256, n % 256] + data) == 0)
  {
    PseudoBytes(source, destination, 17, data);
  }
}
