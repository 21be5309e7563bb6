/**
 The Internet checksum of section 1 of RFC 1071, as src/ipv4.c, src/icmp.c, src/tcp.c and
 src/udp.c compute it: carries are folded back after every word.
 */
module Checksum {
  import opened Bytes

  /** The plain sum of the 16-bit big-endian words; an odd last byte is a high byte. */
  function WordSum(data: seq<U8>): nat {
    if |data| == 0 then 0
    else if |data| == 1 then data[0] as int * 0x100
    else Read16(data, 0) + WordSum(data[2..])
  }

  /** The one's-complement sum: 65535 is taken away until what is left fits in 16 bits. */
  function OnesSum(n: nat): U16 {
    if n <= 0xFFFF then n else OnesSum(n - 0xFFFF)
  }

  function InternetChecksum(data: seq<U8>): U16 {
    0xFFFF - OnesSum(WordSum(data))
  }

  /** `(sum & 0xFFFF) + (sum >> 16)`. */
  function Fold(sum: U32): U32 {
    sum % 0x1_0000 + sum / 0x1_0000
  }

  // ------------------------------------------------------------- folding refines the sum

  /** In closed form: zero for zero, otherwise the residue modulo 65535 in 1..65535. */
  lemma {:induction false} OnesSumIsResidue(n: nat)
    ensures OnesSum(n) == (if n == 0 then 0 else (n - 1) % 0xFFFF + 1)
  {
    if n > 0xFFFF {
      OnesSumIsResidue(n - 0xFFFF);
    }
  }

  lemma {:induction false} OnesSumSteps(n: nat, k: nat)
    requires n == 0 ==> k == 0
    ensures OnesSum(n + k * 0xFFFF) == OnesSum(n)
  {
    if k > 0 {
      OnesSumSteps(n, k - 1);
      assert n + k * 0xFFFF - 0xFFFF == n + (k - 1) * 0xFFFF;
    }
  }

  /** Folding keeps the one's-complement sum and does not turn a nonzero sum into zero. */
  lemma FoldKeepsSum(n: U32)
    ensures OnesSum(Fold(n)) == OnesSum(n)
    ensures n <= 0x1_FFFE ==> Fold(n) == OnesSum(n)
    ensures n >= 0x1_0000 ==> Fold(n) < n
  {
    var high := n / 0x1_0000;
    assert n == Fold(n) + high * 0xFFFF;
    OnesSumSteps(Fold(n), high);
  }

  /** The one's-complement sum may be taken piece by piece. */
  lemma {:induction false} OnesSumAdds(a: nat, b: nat)
    ensures OnesSum(OnesSum(a) + b) == OnesSum(a + b)
  {
    if a > 0xFFFF {
      OnesSumAdds(a - 0xFFFF, b);
      assert a + b - 0xFFFF == a - 0xFFFF + b;
    }
  }

  // ----------------------------------------------------------------------- the loops

  /** checksum_add and checksum_add_word. A sum that fits in 16 bits stays one. */
  method ChecksumAdd(sum: U32, word: U16) returns (r: U32)
    ensures sum <= 0xFFFF ==> r == OnesSum(sum + word) <= 0xFFFF
  {
    var s := (sum + word) % 0x1_0000_0000;
    FoldKeepsSum(s);
    r := Fold(s);
  }

  lemma WordSumAt(data: seq<U8>, i: nat)
    requires i + 2 <= |data|
    ensures WordSum(data[i..]) == Read16(data, i) + WordSum(data[i + 2..])
  {
    assert data[i..][2..] == data[i + 2..];
  }

  /** add_bytes, and the same loop in the three other files. The accumulator never exceeds 0xFFFF. */
  method AddBytes(start: U16, data: seq<U8>) returns (sum: U32)
    ensures sum == OnesSum(start + WordSum(data)) <= 0xFFFF
  {
    sum := start;
    var i := 0;
    assert data[0..] == data;
    while i + 1 < |data|
      invariant 0 <= i <= |data|
      invariant sum <= 0xFFFF
      invariant OnesSum(sum + WordSum(data[i..])) == OnesSum(start + WordSum(data))
    {
      var word := Read16(data, i);
      WordSumAt(data, i);
      OnesSumAdds(sum + word, WordSum(data[i + 2..]));
      sum := ChecksumAdd(sum, word);
      i := i + 2;
    }
    if i < |data| {
      sum := ChecksumAdd(sum, data[i] as int * 0x100);
    }
  }

  /** checksum_finish, for any 32-bit sum. */
  method Finish(sum: U32) returns (r: U16)
    ensures r == 0xFFFF - OnesSum(sum)
  {
    var s := sum;
    while s / 0x1_0000 != 0
      invariant OnesSum(s) == OnesSum(sum)
      decreases s
    {
      FoldKeepsSum(s);
      s := Fold(s);
    }
    r := 0xFFFF - s;
  }

  /** ipv4_checksum and icmp_checksum. */
  method Compute(data: seq<U8>) returns (r: U16)
    ensures r == InternetChecksum(data)
  {
    var sum := AddBytes(0, data);
    r := Finish(sum);
  }

  // ------------------------------------------------------------------- words and fields

  lemma {:induction false} WordSumConcat(a: seq<U8>, b: seq<U8>)
    requires |a| % 2 == 0
    ensures WordSum(a + b) == WordSum(a) + WordSum(b)
  {
    if a == [] {
      assert a + b == b;
    } else {
      WordSumConcat(a[2..], b);
      assert (a + b)[2..] == a[2..] + b;
    }
  }

  lemma WordSumSplit(data: seq<U8>, at: nat)
    requires at % 2 == 0 && at + 2 <= |data|
    ensures WordSum(data) == WordSum(data[..at]) + Read16(data, at) + WordSum(data[at + 2..])
  {
    assert data == data[..at] + data[at..];
    WordSumConcat(data[..at], data[at..]);
    assert data[at..][2..] == data[at + 2..];
  }

  lemma WordSumPatched(data: seq<U8>, at: nat, v: U16)
    requires at % 2 == 0 && at + 2 <= |data|
    ensures WordSum(Patched(data, at, v)) == WordSum(data) - Read16(data, at) + v
  {
    var after := Patched(data, at, v);
    assert after[..at] == data[..at] && after[at + 2..] == data[at + 2..] && Read16(after, at) == v;
    WordSumSplit(data, at);
    WordSumSplit(after, at);
  }

  /** What the senders store: the checksum of the data with a zero field, zero possibly sent as 0xFFFF. */
  predicate Sealing(ck: U16, sum: nat) {
    ck == 0xFFFF - OnesSum(sum) || (ck == 0xFFFF && OnesSum(sum) == 0xFFFF)
  }

  /** Adding a word makes the total checksum zero exactly when the word is the complement. */
  lemma SealsIffComplement(sum: nat, ck: U16)
    ensures OnesSum(sum + ck) == 0xFFFF <==> Sealing(ck, sum)
  {
    OnesSumAdds(sum, ck);
  }

  /** Self-validation: data with its checksum stored in a zero field sums to zero. */
  lemma SealedIsValid(data: seq<U8>, at: nat, ck: U16)
    requires at % 2 == 0 && at + 2 <= |data| && Read16(data, at) == 0
    ensures InternetChecksum(Patched(data, at, ck)) == 0 <==> Sealing(ck, WordSum(data))
  {
    WordSumPatched(data, at, ck);
    SealsIffComplement(WordSum(data), ck);
  }

  /** Two different words that the one's-complement sum cannot tell apart. */
  predicate BothZero(a: U16, b: U16) {
    (a == 0 && b == 0xFFFF) || (a == 0xFFFF && b == 0)
  }

  lemma {:induction false} OnesSumPositive(n: nat)
    requires n > 0
    ensures OnesSum(n) > 0
  {
    if n > 0xFFFF {
      OnesSumPositive(n - 0xFFFF);
    }
  }

  /** Of two words added to the same nonzero rest, both seal it exactly when they are the same or both zero. */
  lemma SameSeal(rest: nat, a: U16, b: U16)
    requires rest > 0 && OnesSum(rest + a) == 0xFFFF
    ensures OnesSum(rest + b) == 0xFFFF <==> a == b || BothZero(a, b)
  {
    OnesSumPositive(rest);
    SealsIffComplement(rest, a);
    SealsIffComplement(rest, b);
  }

  /**
   Detection: in valid data that is not zero elsewhere, replacing one aligned word keeps the data
   valid exactly when the word is the same or both are representations of zero.
   */
  lemma WordChangeDetected(data: seq<U8>, at: nat, v: U16)
    requires at % 2 == 0 && at + 2 <= |data|
    requires InternetChecksum(data) == 0
    requires WordSum(data) > Read16(data, at)
    ensures InternetChecksum(Patched(data, at, v)) == 0 <==> v == Read16(data, at) || BothZero(v, Read16(data, at))
  {
    WordSumPatched(data, at, v);
    SumChangeDetected(WordSum(data), WordSum(Patched(data, at, v)), Read16(data, at), v);
  }

  lemma SumChangeDetected(total: nat, changed: nat, w: U16, v: U16)
    requires w < total && changed == total - w + v && OnesSum(total) == 0xFFFF
    ensures OnesSum(changed) == 0xFFFF <==> v == w || BothZero(v, w)
  {
    SameSeal(total - w, w, v);
  }

  /** The worked example of section 3 of RFC 1071: the bytes 00 01 f2 03 f4 f5 f6 f7 sum to ddf2. */
  lemma WorkedExample()
    ensures InternetChecksum([0x00, 0x01, 0xF2, 0x03, 0xF4, 0xF5, 0xF6, 0xF7]) == 0xFFFF - 0xDDF2
    ensures forall b: U8 :: InternetChecksum([b]) == 0xFFFF - 256 * b as int
  {
    var d: seq<U8> := [0x00, 0x01, 0xF2, 0x03, 0xF4, 0xF5, 0xF6, 0xF7];
    assert d[2..] == [0xF2, 0x03, 0xF4, 0xF5, 0xF6, 0xF7] && d[2..][2..] == [0xF4, 0xF5, 0xF6, 0xF7]
        && d[2..][2..][2..] == [0xF6, 0xF7] && d[2..][2..][2..][2..] == [];
    assert WordSum(d) == 0x0001 + 0xF203 + 0xF4F5 + 0xF6F7;
    OnesSumIsResidue(0x2DDF0);
  }
}
