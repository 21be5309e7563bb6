/** The checksum of a TCP segment or UDP datagram: pseudo-header, then the data. */
module Transport {
  import opened Bytes
  import opened Checksum

  /** Source, destination, a zero byte, the protocol and the length as a 16-bit value. */
  function PseudoHeader(source: seq<U8>, destination: seq<U8>, protocol: U8, len: nat): seq<U8>
    requires |source| == 4 && |destination| == 4
  {
    source + (destination + (BE16(protocol) + BE16(len % 0x1_0000)))
  }

  /** The bytes that are summed. */
  function Covered(source: seq<U8>, destination: seq<U8>, protocol: U8, data: seq<U8>): seq<U8>
    requires |source| == 4 && |destination| == 4
  {
    PseudoHeader(source, destination, protocol, |data|) + data
  }

  lemma WordSumField(v: U16)
    ensures WordSum(BE16(v)) == v
  {
    assert BE16(v)[2..] == [];
  }

  lemma FourFields(a: seq<U8>, b: seq<U8>, c: U16, d: U16)
    requires |a| == 4 && |b| == 4
    ensures WordSum(a + (b + (BE16(c) + BE16(d)))) == WordSum(a) + WordSum(b) + c + d
  {
    WordSumConcat(a, b + (BE16(c) + BE16(d)));
    WordSumConcat(b, BE16(c) + BE16(d));
    WordSumConcat(BE16(c), BE16(d));
    WordSumField(c);
    WordSumField(d);
  }

  lemma CoveredSum(source: seq<U8>, destination: seq<U8>, protocol: U8, data: seq<U8>)
    requires |source| == 4 && |destination| == 4
    ensures WordSum(Covered(source, destination, protocol, data))
         == WordSum(source) + WordSum(destination) + protocol + |data| % 0x1_0000 + WordSum(data)
  {
    var header := PseudoHeader(source, destination, protocol, |data|);
    FourFields(source, destination, protocol, |data| % 0x1_0000);
    WordSumConcat(header, data);
  }

  /** The words of the pseudo-header. */
  method HeaderSum(source: seq<U8>, destination: seq<U8>, protocol: U8, len: U16) returns (sum: U32)
    requires |source| == 4 && |destination| == 4
    ensures sum == OnesSum(WordSum(source) + WordSum(destination) + protocol + len) <= 0xFFFF
  {
    ghost var s, d := WordSum(source), WordSum(destination);
    sum := AddBytes(0, source);
    sum := AddBytes(sum, destination);
    OnesSumAdds(s, d);
    sum := ChecksumAdd(sum, protocol);
    OnesSumAdds(s + d, protocol);
    sum := ChecksumAdd(sum, len);
    OnesSumAdds(s + d + protocol, len);
  }

  /** tcp_checksum_sum_ipv4, and the same sum word by word in src/udp.c. */
  method Sum(source: seq<U8>, destination: seq<U8>, protocol: U8, data: seq<U8>) returns (sum: U32)
    requires |source| == 4 && |destination| == 4
    ensures sum == OnesSum(WordSum(Covered(source, destination, protocol, data))) <= 0xFFFF
  {
    var len: U16 := |data| % 0x1_0000;
    sum := HeaderSum(source, destination, protocol, len);
    sum := AddBytes(sum, data);
    OnesSumAdds(WordSum(source) + WordSum(destination) + protocol + len, WordSum(data));
    CoveredSum(source, destination, protocol, data);
  }

  /** Replacing the word at `at` of the data replaces a word of what is summed. */
  lemma CoveredPatched(source: seq<U8>, destination: seq<U8>, protocol: U8, data: seq<U8>, at: nat, v: U16)
    requires |source| == 4 && |destination| == 4 && at + 2 <= |data|
    ensures Covered(source, destination, protocol, Patched(data, at, v))
         == Patched(Covered(source, destination, protocol, data), at + 12, v)
    ensures Read16(Covered(source, destination, protocol, data), at + 12) == Read16(data, at)
  {
    var h := PseudoHeader(source, destination, protocol, |data|);
    assert (h + data)[..at + 12] == h + data[..at];
    assert (h + data)[at + 14..] == data[at + 2..];
  }

  /** A datagram sealed with its checksum verifies, whatever it contains and however long it is. */
  lemma SealedVerifies(source: seq<U8>, destination: seq<U8>, protocol: U8, data: seq<U8>, at: nat, ck: U16)
    requires |source| == 4 && |destination| == 4
    requires at % 2 == 0 && at + 2 <= |data| && Read16(data, at) == 0
    ensures InternetChecksum(Covered(source, destination, protocol, Patched(data, at, ck))) == 0 <==>
              Sealing(ck, WordSum(Covered(source, destination, protocol, data)))
  {
    CoveredPatched(source, destination, protocol, data, at, ck);
    SealedIsValid(Covered(source, destination, protocol, data), at + 12, ck);
  }

  /** One aligned word changed: caught, unless both words are zero in one's complement. */
  lemma WordChangeCaught(source: seq<U8>, destination: seq<U8>, protocol: U8, data: seq<U8>, at: nat, v: U16)
    requires |source| == 4 && |destination| == 4 && protocol > 0
    requires at % 2 == 0 && at + 2 <= |data|
    requires InternetChecksum(Covered(source, destination, protocol, data)) == 0
    ensures InternetChecksum(Covered(source, destination, protocol, Patched(data, at, v))) == 0 <==>
              v == Read16(data, at) || BothZero(v, Read16(data, at))
  {
    var all := Covered(source, destination, protocol, data);
    CoveredPatched(source, destination, protocol, data, at, v);
    assert WordSum(all) > Read16(all, at + 12) by {
      CoveredSum(source, destination, protocol, data);
      WordSumSplit(data, at);
    }
    WordChangeDetected(all, at + 12, v);
  }

  /** A changed last byte of data of odd length is always caught. */
  lemma LastByteChangeCaught(source: seq<U8>, destination: seq<U8>, protocol: U8, data: seq<U8>, b: U8)
    requires |source| == 4 && |destination| == 4 && protocol > 0
    requires |data| % 2 == 1 && b != data[|data| - 1]
    requires InternetChecksum(Covered(source, destination, protocol, data)) == 0
    ensures InternetChecksum(Covered(source, destination, protocol, data[|data| - 1 := b])) != 0
  {
    var k := |data| - 1;
    var rest := WordSum(PseudoHeader(source, destination, protocol, |data|)) + WordSum(data[..k]);
    LastByteSum(source, destination, protocol, data);
    LastByteSum(source, destination, protocol, data[k := b]);
    assert data[k := b][..k] == data[..k];
    FourFields(source, destination, protocol, |data| % 0x1_0000);
    SameSeal(rest, data[k] as int * 0x100, b as int * 0x100);
  }

  lemma LastByteSum(source: seq<U8>, destination: seq<U8>, protocol: U8, data: seq<U8>)
    requires |source| == 4 && |destination| == 4 && |data| % 2 == 1
    ensures var k := |data| - 1;
            WordSum(Covered(source, destination, protocol, data)) ==
              WordSum(PseudoHeader(source, destination, protocol, |data|)) + WordSum(data[..k]) + data[k] as int * 0x100
  {
    var k := |data| - 1;
    assert data == data[..k] + [data[k]];
    WordSumConcat(data[..k], [data[k]]);
    WordSumConcat(PseudoHeader(source, destination, protocol, |data|), data);
  }

  /** The bytes of the pseudo-header, in network byte order. */
  lemma PseudoBytes(source: seq<U8>, destination: seq<U8>, protocol: U8, data: seq<U8>)
    requires |source| == 4 && |destination| == 4
    ensures var n := |data| % 0x1_0000;
            Covered(source, destination, protocol, data)
              == source + destination + [0, protocol, n / 256, n % 256] + data
  {
  }
}
