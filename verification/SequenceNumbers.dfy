/** Sixteen-bit sequence numbers and what they say about the unbounded counters behind
    them (section 5.8 of RFC 2661, section 4.2 of RFC 3931). */
module SequenceNumbers {
  import opened Wire

  const MODULUS := 0x1_0000
  const HALF := 0x8000

  /** The wire form of an unbounded counter. */
  function Wire16(n: int): u16 {
    n % MODULUS
  }

  function SeqIncrement(seqNum: u16): u16 {
    (seqNum + 1) % MODULUS
  }

  /** Every intermediate value is itself a uint16: nothing overflows. */
  function SeqCompare(seq1: u16, seq2: u16): (c: int)
    ensures -1 <= c <= 1
  {
    var delta: u16 :=
      if seq2 <= seq1 then seq1 - seq2
      else
        var toTop: u16 := 0xffff - seq2 + 1;
        toTop + seq1;
    if delta == 0 then 0 else if delta < HALF then 1 else -1
  }

  function Sign(d: int): int {
    if d == 0 then 0 else if d > 0 then 1 else -1
  }

  /** The representative of d modulo 2^16 in [-0x8000, 0x8000). */
  function Centred(d: int): (r: int)
    ensures -HALF <= r < HALF && (d - r) % MODULUS == 0
  {
    (d + HALF) % MODULUS - HALF
  }

  lemma {:induction false} IncrementCounts(n: int)
    ensures SeqIncrement(Wire16(n)) == Wire16(n + 1)
  {
  }

  /** For all counters, the comparison is the sign of their centred difference. */
  lemma {:induction false} CompareIsCentred(a: int, b: int)
    ensures SeqCompare(Wire16(a), Wire16(b)) == Sign(Centred(a - b))
  {
    var x, y := Wire16(a), Wire16(b);
    CentredShift(x - y, a / MODULUS - b / MODULUS);
    assert a - b == x - y + MODULUS * (a / MODULUS - b / MODULUS);
    CompareSmall(x, y);
    hide SeqCompare, Sign, Centred;
  }

  lemma {:induction false} CentredShift(d: int, k: int)
    ensures Centred(d + MODULUS * k) == Centred(d)
  {
  }

  lemma {:induction false} CompareSmall(x: u16, y: u16)
    ensures SeqCompare(x, y) == Sign(Centred(x - y))
  {
  }

  /** So it orders the counters themselves while they stay within half the range. */
  lemma {:induction false} CompareRefines(a: int, b: int)
    requires -HALF <= a - b < HALF
    ensures SeqCompare(Wire16(a), Wire16(b)) == Sign(a - b)
  {
  }

  /** Equal wire values within one full range are equal counters. */
  lemma {:induction false} EqualWire(a: int, b: int)
    requires -MODULUS < a - b < MODULUS
    ensures SeqCompare(Wire16(a), Wire16(b)) == 0 <==> a == b
  {
  }

  /** The order is antisymmetric except at distance exactly 0x8000, where each of the two
      numbers is told it precedes the other. */
  lemma {:induction false} CompareAntisymmetric(x: u16, y: u16)
    ensures SeqCompare(x, y) == -SeqCompare(y, x) <==> Centred(x - y) != -HALF
    ensures Centred(x - y) == -HALF ==> SeqCompare(x, y) == SeqCompare(y, x) == -1
  {
  }
}
