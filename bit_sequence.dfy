/** `get_lexographically_next_bit_sequence` (woker/src/main.rs:528-531), the
    "snoob" trick: the next larger integer with the same number of set bits.

    The Rust divides `t & -t` by `bits & -bits` in f64 and converts back to
    i64. For `bits != 0` both operands are powers of two and the first is the
    larger, so that division is exact and is modelled as integer division.
    For `bits == 0` both operands are 0, the f64 quotient is NaN and the
    saturating cast turns it into 0; `Quotient` spells that case out. */
module BitSequence {

  function Quotient(a: bv64, b: bv64): bv64 {
    if b == 0 then 0 else a / b
  }

  /** `t`: the lowest run of set bits carried out into the bit above it. */
  function Carry(bits: bv64): bv64 {
    (bits | (bits - 1)) + 1
  }

  /** `x & -x`, the lowest set bit of `x`. */
  function LowBit(x: bv64): bv64 {
    x & -x
  }

  /** `t | ((q >> 1) - 1)`: refill the bottom with `q / 2 - 1` set bits' worth. */
  function Fill(t: bv64, q: bv64): bv64 {
    t | ((q >> 1) - 1)
  }

  function NextBitSequence(bits: bv64): bv64 {
    Fill(Carry(bits), Quotient(LowBit(Carry(bits)), LowBit(bits)))
  }

  /** The unit test of the source: the successor of 0b11111 is 0b101111. */
  lemma NextOfLowestFlush()
    ensures NextBitSequence(0x1F) == 47
  {
  }

  /** Over 13-bit patterns the successor is strictly larger and fits in 14 bits. */
  lemma NextGrows(bits: bv64)
    requires 0 < bits < 1 << 13
    ensures bits < NextBitSequence(bits) < 1 << 14
  {
  }

  /** The single bit at position p. */
  function BitAt(p: bv8): bv64
    requires p < 64
  {
    1 << p
  }

  /** The set bits lo..hi, a run. */
  function Run(lo: bv8, hi: bv8): bv64
    requires lo <= hi <= 12
  {
    BitAt(hi + 1) - BitAt(lo)
  }


  lemma QuotientOfPowers0(m: bv8, j: bv8, d: bv8)
    requires j == 0 && j <= m <= 13 && m == j + d
    ensures Quotient(BitAt(m), BitAt(j)) == BitAt(d)
  {
  }

  lemma QuotientOfPowers1(m: bv8, j: bv8, d: bv8)
    requires j == 1 && j <= m <= 13 && m == j + d
    ensures Quotient(BitAt(m), BitAt(j)) == BitAt(d)
  {
  }

  lemma QuotientOfPowers2(m: bv8, j: bv8, d: bv8)
    requires j == 2 && j <= m <= 13 && m == j + d
    ensures Quotient(BitAt(m), BitAt(j)) == BitAt(d)
  {
  }

  lemma QuotientOfPowers3(m: bv8, j: bv8, d: bv8)
    requires j == 3 && j <= m <= 13 && m == j + d
    ensures Quotient(BitAt(m), BitAt(j)) == BitAt(d)
  {
  }

  lemma QuotientOfPowers4(m: bv8, j: bv8, d: bv8)
    requires j == 4 && j <= m <= 13 && m == j + d
    ensures Quotient(BitAt(m), BitAt(j)) == BitAt(d)
  {
  }

  lemma QuotientOfPowers5(m: bv8, j: bv8, d: bv8)
    requires j == 5 && j <= m <= 13 && m == j + d
    ensures Quotient(BitAt(m), BitAt(j)) == BitAt(d)
  {
  }

  lemma QuotientOfPowers6(m: bv8, j: bv8, d: bv8)
    requires j == 6 && j <= m <= 13 && m == j + d
    ensures Quotient(BitAt(m), BitAt(j)) == BitAt(d)
  {
  }

  lemma QuotientOfPowers7(m: bv8, j: bv8, d: bv8)
    requires j == 7 && j <= m <= 13 && m == j + d
    ensures Quotient(BitAt(m), BitAt(j)) == BitAt(d)
  {
  }

  lemma QuotientOfPowers8(m: bv8, j: bv8, d: bv8)
    requires j == 8 && j <= m <= 13 && m == j + d
    ensures Quotient(BitAt(m), BitAt(j)) == BitAt(d)
  {
  }

  lemma QuotientOfPowers9(m: bv8, j: bv8, d: bv8)
    requires j == 9 && j <= m <= 13 && m == j + d
    ensures Quotient(BitAt(m), BitAt(j)) == BitAt(d)
  {
  }

  lemma QuotientOfPowers10(m: bv8, j: bv8, d: bv8)
    requires j == 10 && j <= m <= 13 && m == j + d
    ensures Quotient(BitAt(m), BitAt(j)) == BitAt(d)
  {
  }

  lemma QuotientOfPowers11(m: bv8, j: bv8, d: bv8)
    requires j == 11 && j <= m <= 13 && m == j + d
    ensures Quotient(BitAt(m), BitAt(j)) == BitAt(d)
  {
  }

  lemma QuotientOfPowers12(m: bv8, j: bv8, d: bv8)
    requires j == 12 && j <= m <= 13 && m == j + d
    ensures Quotient(BitAt(m), BitAt(j)) == BitAt(d)
  {
  }

  /** The quotient of two powers of two, the only quotients the generator
      forms on 13-bit patterns. It is proved one divisor at a time. */
  lemma QuotientOfPowers(m: bv8, j: bv8, d: bv8)
    requires j <= 12 && j <= m <= 13 && m == j + d
    ensures Quotient(BitAt(m), BitAt(j)) == BitAt(d)
  {
    if j == 0 {
      QuotientOfPowers0(m, j, d);
    } else if j == 1 {
      QuotientOfPowers1(m, j, d);
    } else if j == 2 {
      QuotientOfPowers2(m, j, d);
    } else if j == 3 {
      QuotientOfPowers3(m, j, d);
    } else if j == 4 {
      QuotientOfPowers4(m, j, d);
    } else if j == 5 {
      QuotientOfPowers5(m, j, d);
    } else if j == 6 {
      QuotientOfPowers6(m, j, d);
    } else if j == 7 {
      QuotientOfPowers7(m, j, d);
    } else if j == 8 {
      QuotientOfPowers8(m, j, d);
    } else if j == 9 {
      QuotientOfPowers9(m, j, d);
    } else if j == 10 {
      QuotientOfPowers10(m, j, d);
    } else if j == 11 {
      QuotientOfPowers11(m, j, d);
    } else {
      QuotientOfPowers12(m, j, d);
    }
  }

  lemma RunOne(p: bv8)
    requires p <= 12
    ensures Run(p, p) == BitAt(p)
  {
  }

  lemma RunGrow(lo: bv8, hi: bv8)
    requires lo <= hi < 12
    ensures Run(lo, hi + 1) == Run(lo, hi) | BitAt(hi + 1)
  {
  }

  /** A bit at p or above is clear in the mask of the bits below q. */
  lemma MaskAbove(p: bv8, q: bv8)
    requires q <= p <= 14
    ensures BitAt(p) & (BitAt(q) - 1) == 0
  {
  }

  /** Carrying a run lo..hi moves it to the single bit hi + 1. */
  lemma CarryOfRun(h: bv64, lo: bv8, hi: bv8)
    requires lo <= hi <= 12 && h & (BitAt(hi + 2) - 1) == 0
    ensures Carry(Run(lo, hi) | h) == BitAt(hi + 1) | h
  {
  }

  lemma LowBitOfRun(h: bv64, lo: bv8, hi: bv8)
    requires lo <= hi <= 12 && h & (BitAt(hi + 2) - 1) == 0
    ensures LowBit(Run(lo, hi) | h) == BitAt(lo)
    ensures LowBit(BitAt(hi + 1) | h) == BitAt(hi + 1)
  {
  }

  lemma FillOfRun(h: bv64, hi: bv8, n: bv8)
    requires n <= hi <= 12
    ensures Fill(BitAt(hi + 1) | h, BitAt(n + 1)) == (BitAt(n) - 1) | BitAt(hi + 1) | h
  {
  }

  /** The successor of a pattern whose lowest run of set bits is lo..hi,
      n + 1 bits long: the top bit of the run moves up one place and the
      other n bits of the run drop to the bottom. */
  lemma NextOfRun(h: bv64, lo: bv8, hi: bv8, n: bv8)
    requires hi <= 12 && hi == lo + n && lo <= hi && h & (BitAt(hi + 2) - 1) == 0
    ensures NextBitSequence(Run(lo, hi) | h) == (BitAt(n) - 1) | BitAt(hi + 1) | h
  {
    CarryOfRun(h, lo, hi);
    QuotientOfRun(h, lo, hi, n);
    FillOfRun(h, hi, n);
  }

  /** The quotient the snoob trick forms on such a pattern is 2^(n + 1). */
  lemma QuotientOfRun(h: bv64, lo: bv8, hi: bv8, n: bv8)
    requires hi <= 12 && hi == lo + n && lo <= hi && h & (BitAt(hi + 2) - 1) == 0
    ensures Quotient(LowBit(Carry(Run(lo, hi) | h)), LowBit(Run(lo, hi) | h)) == BitAt(n + 1)
  {
    CarryOfRun(h, lo, hi);
    LowBitOfRun(h, lo, hi);
    QuotientOfPowers(hi + 1, lo, n + 1);
  }
}
