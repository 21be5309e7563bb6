/**
 Comparisons of 32-bit sequence numbers by signed distance (`seq_lt` and friends), and
 what they mean for unbounded stream positions.
 */
module SequenceSpace {
  import opened Bytes

  const MODULUS: int := 0x1_0000_0000
  const HALF: int := 0x8000_0000

  /** Conversion to `uint32_t`. */
  function Wrap(x: int): U32 {
    x % MODULUS
  }

  /** Conversion of a `uint32_t` to `int32_t`. */
  function Signed(x: U32): int {
    if x < HALF then x else x - MODULUS
  }

  /** `(int32_t)(a - b)`. */
  function Distance(a: U32, b: U32): int {
    Signed(Wrap(a - b))
  }

  predicate SeqLt(a: U32, b: U32) { Distance(a, b) < 0 }
  predicate SeqLe(a: U32, b: U32) { Distance(a, b) <= 0 }
  predicate SeqGt(a: U32, b: U32) { Distance(a, b) > 0 }
  predicate SeqGe(a: U32, b: U32) { Distance(a, b) >= 0 }

  lemma WrapTwice(x: int, k: int)
    ensures Wrap(Wrap(x) + k) == Wrap(x + k)
  {
  }

  lemma WrapPeriod(x: int)
    ensures Wrap(x - MODULUS) == Wrap(x)
  {
  }

  /** The distance from `b` to `a` is the one offset in [-2^31, 2^31) that leads from `b` to `a`. */
  lemma DistanceIs(a: U32, b: U32, t: int)
    ensures Wrap(b + Distance(a, b)) == a
    ensures -HALF <= t < HALF && Wrap(b + t) == a ==> Distance(a, b) == t
  {
  }

  /** The unsigned gap from `b` to `a` is the one offset in [0, 2^32) that leads from `b` to `a`. */
  lemma GapIs(a: U32, b: U32, t: int)
    ensures Wrap(b + Wrap(a - b)) == a
    ensures 0 <= t < MODULUS && Wrap(b + t) == a ==> Wrap(a - b) == t
  {
  }

  /** On positions less than 2^31 apart, the wrapped distance is the real one. */
  lemma DistanceOfPositions(p: int, q: int)
    requires -HALF <= p - q < HALF
    ensures Distance(Wrap(p), Wrap(q)) == p - q
  {
    WrapTwice(q, p - q);
    DistanceIs(Wrap(p), Wrap(q), p - q);
  }

  /** The four comparisons agree with the integer order while less than half the circle separates the positions. */
  lemma ComparisonsAreOrder(p: int, q: int)
    requires -HALF < p - q < HALF
    ensures SeqLt(Wrap(p), Wrap(q)) <==> p < q
    ensures SeqLe(Wrap(p), Wrap(q)) <==> p <= q
    ensures SeqGt(Wrap(p), Wrap(q)) <==> p > q
    ensures SeqGe(Wrap(p), Wrap(q)) <==> p >= q
  {
    DistanceOfPositions(p, q);
  }

  /** And not beyond: a position half the circle or more ahead compares as behind. */
  lemma OrderFlipsPastHalf(p: int, q: int)
    requires HALF <= p - q < MODULUS
    ensures SeqLt(Wrap(p), Wrap(q))
  {
    assert Wrap(Wrap(q) + (p - q - MODULUS)) == Wrap(p) by {
      WrapTwice(q, p - q - MODULUS);
      WrapPeriod(p);
    }
    DistanceIs(Wrap(p), Wrap(q), p - q - MODULUS);
  }

  /**
   A range that neither ends at or before `next` nor starts after it has `next` strictly
   inside: the code's `overlap > payload_len` guards cannot fire, whatever the three values.
   */
  lemma OverlapFits(start: U32, len: U32, next: U32)
    requires !SeqLe(Wrap(start + len), next)
    requires !SeqGt(start, next)
    ensures Wrap(next - start) < len
    ensures Wrap(start + len) == Wrap(next + (len - Wrap(next - start)))
  {
    var overlap := Wrap(next - start);
    OverlapIsDistance(start, next);
    if overlap >= len {
      HeadShifts(start, next, len);
    }
    GapIs(next, start, overlap);
    WrapTwice(start + overlap, len - overlap);
  }

  lemma HeadShifts(a: U32, b: U32, k: int)
    requires -HALF <= Distance(a, b) + k < HALF
    ensures Distance(Wrap(a + k), b) == Distance(a, b) + k
  {
    var t := Distance(a, b);
    assert Wrap(b + (t + k)) == Wrap(a + k) by {
      DistanceIs(a, b, t);
      WrapTwice(b + t, k);
    }
    DistanceIs(Wrap(a + k), b, t + k);
  }

  lemma TailShifts(a: U32, b: U32, k: int)
    requires -HALF <= Distance(a, b) - k < HALF
    ensures Distance(a, Wrap(b + k)) == Distance(a, b) - k
  {
    var t := Distance(a, b);
    assert Wrap(Wrap(b + k) + (t - k)) == a by {
      DistanceIs(a, b, t);
      WrapTwice(b + k, t - k);
    }
    DistanceIs(a, Wrap(b + k), t - k);
  }

  /** Moving either end of a distance by `k` moves the distance by `k`, as long as it stays in range. */
  lemma DistanceShifts(a: U32, b: U32, k: int)
    ensures -HALF <= Distance(a, b) + k < HALF ==> Distance(Wrap(a + k), b) == Distance(a, b) + k
    ensures -HALF <= Distance(a, b) - k < HALF ==> Distance(a, Wrap(b + k)) == Distance(a, b) - k
  {
    if -HALF <= Distance(a, b) + k < HALF {
      HeadShifts(a, b, k);
    }
    if -HALF <= Distance(a, b) - k < HALF {
      TailShifts(a, b, k);
    }
  }

  /** Distances to a common reference subtract. */
  lemma DistanceDiffers(a: U32, b: U32, ref: U32)
    requires -HALF <= Distance(a, ref) - Distance(b, ref) < HALF
    ensures Distance(a, b) == Distance(a, ref) - Distance(b, ref)
  {
    DistanceIs(a, ref, 0);
    DistanceIs(b, ref, 0);
    DistanceOfPositions(ref + Distance(a, ref), ref + Distance(b, ref));
  }

  /** How far a start at or behind `next` overlaps it. */
  lemma OverlapIsDistance(start: U32, next: U32)
    requires !SeqGt(start, next)
    ensures Wrap(next - start) == -Distance(start, next)
  {
  }
}
