/** src/icmp.c: echo messages. */
module Icmp {
  import opened Bytes
  import opened Checksum
  import opened WireBuffer

  const HEADER_LEN: int := 8
  const MAX_PAYLOAD_LEN: int := 65527

  datatype Echo = Echo(kind: U8, code: U8, checksum: U16, identifier: U16, sequence: U16, payload: seq<U8>)

  predicate Encodable(p: Echo) {
    (p.kind == 0 || p.kind == 8) && p.code == 0 && |p.payload| <= MAX_PAYLOAD_LEN
  }

  function Header(p: Echo, ck: U16): seq<U8> {
    [p.kind] + [p.code] + BE16(ck) + BE16(p.identifier) + BE16(p.sequence)
  }

  function Message(p: Echo, ck: U16): seq<U8> {
    Header(p, ck) + p.payload
  }

  function Encode(p: Echo): seq<U8> {
    Message(p, InternetChecksum(Message(p, 0)))
  }

  /** icmp_serialize. */
  method Serialize(p: Echo, buffer: array<U8>) returns (n: nat)
    modifies buffer
    ensures n > 0 <==>
              && (p.kind == 0 || p.kind == 8) && p.code == 0
              && |p.payload| <= 65527 && 8 + |p.payload| <= buffer.Length
    ensures n > 0 ==> n == |Encode(p)| && WrittenAt(old(buffer[..]), buffer[..], 0, Encode(p))
    ensures n == 0 ==> buffer[..] == old(buffer[..])
  {
    if (p.kind != 8 && p.kind != 0) || p.code != 0 || |p.payload| > MAX_PAYLOAD_LEN {
      return 0;
    }
    var totalLen := HEADER_LEN + |p.payload|;
    if buffer.Length < totalLen {
      return 0;
    }
    WriteMessage(p, buffer);
    ghost var plain := buffer[..];
    assert buffer[..totalLen] == Message(p, 0);
    var checksum := Compute(buffer[..totalLen]);
    Write16(buffer, 2, checksum);
    PatchWritten(old(buffer[..]), plain, buffer[..], Message(p, 0), 2, checksum);
    MessagePatched(p, checksum);
    return totalLen;
  }

  method WriteMessage(p: Echo, buffer: array<U8>)
    requires HEADER_LEN + |p.payload| <= buffer.Length
    modifies buffer
    ensures WrittenAt(old(buffer[..]), buffer[..], 0, Message(p, 0))
  {
    Write8(buffer, 0, p.kind);
    Write8(buffer, 1, p.code);
    Write16(buffer, 2, 0);
    Write16(buffer, 4, p.identifier);
    Write16(buffer, 6, p.sequence);
    CopyBehind(buffer, HEADER_LEN, p.payload, old(buffer[..]), Header(p, 0));
  }

  lemma MessagePatched(p: Echo, ck: U16)
    ensures Patched(Message(p, 0), 2, ck) == Message(p, ck)
    ensures Read16(Message(p, ck), 2) == ck
  {
    FieldReads16(Message(p, ck), 2, ck);
  }

  /** icmp_parse. */
  function Parse(data: seq<U8>): Result<Echo> {
    if |data| < HEADER_LEN then Err(-2)
    else if data[0] != 8 && data[0] != 0 then Err(-3)
    else if data[1] != 0 then Err(-4)
    else if InternetChecksum(data) != 0 then Err(-5)
    else if |data| - HEADER_LEN > MAX_PAYLOAD_LEN then Err(-6)
    else Ok(Echo(data[0], data[1], Read16(data, 2), Read16(data, 4), Read16(data, 6), data[HEADER_LEN..]))
  }

  /** What icmp_serialize writes is accepted and comes back, whatever the payload and its length. */
  lemma ParseEncode(p: Echo)
    requires Encodable(p)
    ensures Parse(Encode(p)) == Ok(p.(checksum := InternetChecksum(Message(p, 0))))
  {
    var ck := InternetChecksum(Message(p, 0));
    var data := Message(p, ck);
    MessagePatched(p, 0);
    MessagePatched(p, ck);
    SealedIsValid(Message(p, 0), 2, ck);
    FieldReads16(data, 4, p.identifier);
    FieldReads16(data, 6, p.sequence);
  }

  /** Where the fields are: type, code, checksum, identifier and sequence number, then the payload. */
  lemma Layout(p: Echo)
    requires Encodable(p)
    ensures var ck := InternetChecksum([p.kind, 0, 0, 0, p.identifier / 256, p.identifier % 256,
                                        p.sequence / 256, p.sequence % 256] + p.payload);
            Encode(p) == [p.kind, 0, ck / 256, ck % 256, p.identifier / 256, p.identifier % 256,
                          p.sequence / 256, p.sequence % 256] + p.payload
  {
    MessageBytes(p, 0);
    MessageBytes(p, InternetChecksum(Message(p, 0)));
  }

  lemma MessageBytes(p: Echo, ck: U16)
    ensures Message(p, ck) == [p.kind, p.code, ck / 256, ck % 256, p.identifier / 256, p.identifier % 256,
                               p.sequence / 256, p.sequence % 256] + p.payload
  {
  }

  /** What icmp_parse accepts, and its error codes. */
  lemma ParseCodes(data: seq<U8>)
    ensures match Parse(data)
            case Err(code) =>
              if |data| < 8 then code == -2
              else if data[0] != 8 && data[0] != 0 then code == -3
              else if data[1] != 0 then code == -4
              else if InternetChecksum(data) != 0 then code == -5
              else code == -6 && |data| > 65535
            case Ok(p) =>
              8 <= |data| <= 65535 && (data[0] == 8 || data[0] == 0) && data[1] == 0 && InternetChecksum(data) == 0
  {
  }
}
