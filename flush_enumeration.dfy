/** What the generator loop of `flushes` (woker/src/main.rs:458-502) walks
    through. Every pattern it meets is the set of five rank bits of some
    `FiveRanks`, and the snoob step of woker/src/main.rs:528-531 is `Succ`, the
    next five-subset in colexicographic order. `ColexIndex` counts the five-subsets
    before a given one, so the n-th step of the loop is the one of rank n + 1.
    From that follow the facts the flush table relies on: every generated
    pattern has five of the thirteen rank bits, no pattern comes twice,
    exactly the nine straight flushes other than 0b11111 are met, and 1277
    patterns remain. */
module FlushEnumeration {
  import opened BitSequence
  import opened Combinatorics
  import opened LookupTables
  import opened FlushOrder

  /** Five rank positions, lowest first. */
  datatype FiveRanks = FiveRanks(r0: bv8, r1: bv8, r2: bv8, r3: bv8, r4: bv8)

  /** Strictly ascending positions, the top one at most `top`. */
  predicate Ascending(f: FiveRanks, top: bv8) {
    f.r0 < f.r1 < f.r2 < f.r3 < f.r4 <= top
  }

  /** The pattern with bits a, b, c, d and e set. */
  function Bits(a: bv8, b: bv8, c: bv8, d: bv8, e: bv8): bv64
    requires a < 64 && b < 64 && c < 64 && d < 64 && e < 64
  {
    BitAt(a) | BitAt(b) | BitAt(c) | BitAt(d) | BitAt(e)
  }

  /** The rank pattern: one bit per position. */
  function Val(f: FiveRanks): bv64
    requires Ascending(f, 13)
  {
    Bits(f.r0, f.r1, f.r2, f.r3, f.r4)
  }

  /** The next five-subset in colexicographic order: the top of the lowest
      run of consecutive positions moves up one place, and the rest of that
      run drops to the bottom. */
  function Succ(f: FiveRanks): FiveRanks {
    if f.r1 != f.r0 + 1 then FiveRanks(f.r0 + 1, f.r1, f.r2, f.r3, f.r4)
    else if f.r2 != f.r1 + 1 then FiveRanks(0, f.r1 + 1, f.r2, f.r3, f.r4)
    else if f.r3 != f.r2 + 1 then FiveRanks(0, 1, f.r2 + 1, f.r3, f.r4)
    else if f.r4 != f.r3 + 1 then FiveRanks(0, 1, 2, f.r3 + 1, f.r4)
    else FiveRanks(0, 1, 2, 3, f.r4 + 1)
  }

  /** The binomial coefficient C(n, k) for n <= 14, k <= 5. */
  function Coef(n: bv8, k: nat): nat
    requires n <= 14 && k <= 5
  {
    if k == 0 then 1
    else if k == 1 then
      (if n == 0 then 0 else if n == 1 then 1 else if n == 2 then 2 else if n == 3 then 3 else if n == 4 then 4
       else if n == 5 then 5 else if n == 6 then 6 else if n == 7 then 7 else if n == 8 then 8 else if n == 9 then 9
       else if n == 10 then 10 else if n == 11 then 11 else if n == 12 then 12 else if n == 13 then 13 else 14)
    else if k == 2 then
      (if n <= 1 then 0 else if n == 2 then 1 else if n == 3 then 3 else if n == 4 then 6
       else if n == 5 then 10 else if n == 6 then 15 else if n == 7 then 21 else if n == 8 then 28 else if n == 9 then 36
       else if n == 10 then 45 else if n == 11 then 55 else if n == 12 then 66 else if n == 13 then 78 else 91)
    else if k == 3 then
      (if n <= 2 then 0 else if n == 3 then 1 else if n == 4 then 4
       else if n == 5 then 10 else if n == 6 then 20 else if n == 7 then 35 else if n == 8 then 56 else if n == 9 then 84
       else if n == 10 then 120 else if n == 11 then 165 else if n == 12 then 220 else if n == 13 then 286 else 364)
    else if k == 4 then
      (if n <= 3 then 0 else if n == 4 then 1
       else if n == 5 then 5 else if n == 6 then 15 else if n == 7 then 35 else if n == 8 then 70 else if n == 9 then 126
       else if n == 10 then 210 else if n == 11 then 330 else if n == 12 then 495 else if n == 13 then 715 else 1001)
    else
      (if n <= 4 then 0
       else if n == 5 then 1 else if n == 6 then 6 else if n == 7 then 21 else if n == 8 then 56 else if n == 9 then 126
       else if n == 10 then 252 else if n == 11 then 462 else if n == 12 then 792 else if n == 13 then 1287 else 2002)
  }

  /** Pascal's rule, which the table obeys throughout. */
  lemma Pascal(n: bv8, k: nat)
    requires n < 14 && k < 5
    ensures Coef(n + 1, k + 1) == Coef(n, k + 1) + Coef(n, k)
  {
  }

  /** The number of five-subsets of positions that come before `f` in
      colexicographic order (the combinatorial number system). */
  function ColexIndex(f: FiveRanks): nat
    requires Ascending(f, 14)
  {
    Coef(f.r0, 1) + Coef(f.r1, 2) + Coef(f.r2, 3) + Coef(f.r3, 4) + Coef(f.r4, 5)
  }

  /** Moving the lowest position up by one adds C(r0, 0) = 1. */
  lemma IndexStep0(a: bv8)
    requires a < 14
    ensures Coef(a + 1, 1) == Coef(a, 1) + 1
  {
    Pascal(a, 0);
  }

  /** The hockey-stick identities behind longer runs: the run a, a+1, ...
      of length k counts one less than its top moved up and the rest reset. */
  lemma IndexStep1(a: bv8, b: bv8)
    requires a < 13 && b == a + 1
    ensures Coef(0, 1) + Coef(b + 1, 2) == Coef(a, 1) + Coef(b, 2) + 1
  {
    Pascal(a, 0);
    Pascal(b, 1);
  }

  lemma IndexStep2(a: bv8, b: bv8, c: bv8)
    requires a < 12 && b == a + 1 && c == b + 1
    ensures Coef(0, 1) + Coef(1, 2) + Coef(c + 1, 3) == Coef(a, 1) + Coef(b, 2) + Coef(c, 3) + 1
  {
    Pascal(a, 0);
    Pascal(b, 1);
    Pascal(c, 2);
  }

  lemma IndexStep3(a: bv8, b: bv8, c: bv8, d: bv8)
    requires a < 11 && b == a + 1 && c == b + 1 && d == c + 1
    ensures Coef(0, 1) + Coef(1, 2) + Coef(2, 3) + Coef(d + 1, 4)
         == Coef(a, 1) + Coef(b, 2) + Coef(c, 3) + Coef(d, 4) + 1
  {
    Pascal(a, 0);
    Pascal(b, 1);
    Pascal(c, 2);
    Pascal(d, 3);
  }

  lemma IndexStep4(a: bv8, b: bv8, c: bv8, d: bv8, e: bv8)
    requires a < 10 && b == a + 1 && c == b + 1 && d == c + 1 && e == d + 1
    ensures Coef(0, 1) + Coef(1, 2) + Coef(2, 3) + Coef(3, 4) + Coef(e + 1, 5)
         == Coef(a, 1) + Coef(b, 2) + Coef(c, 3) + Coef(d, 4) + Coef(e, 5) + 1
  {
    Pascal(a, 0);
    Pascal(b, 1);
    Pascal(c, 2);
    Pascal(d, 3);
    Pascal(e, 4);
  }

  /** The lowest run of consecutive positions ends at index k. */
  predicate RunEnds(f: FiveRanks, k: nat) {
    if k == 0 then f.r1 != f.r0 + 1
    else if k == 1 then f.r1 == f.r0 + 1 && f.r2 != f.r1 + 1
    else if k == 2 then f.r1 == f.r0 + 1 && f.r2 == f.r1 + 1 && f.r3 != f.r2 + 1
    else if k == 3 then f.r1 == f.r0 + 1 && f.r2 == f.r1 + 1 && f.r3 == f.r2 + 1 && f.r4 != f.r3 + 1
    else f.r1 == f.r0 + 1 && f.r2 == f.r1 + 1 && f.r3 == f.r2 + 1 && f.r4 == f.r3 + 1
  }

  lemma SuccIndexAt0(f: FiveRanks)
    requires Ascending(f, 13) && RunEnds(f, 0)
    ensures Succ(f) == FiveRanks(f.r0 + 1, f.r1, f.r2, f.r3, f.r4)
    ensures Ascending(Succ(f), 14) && (f.r4 <= 12 ==> Ascending(Succ(f), 13))
    ensures ColexIndex(Succ(f)) == ColexIndex(f) + 1
  {
    IndexStep0(f.r0);
  }

  lemma SuccIndexAt1(f: FiveRanks)
    requires Ascending(f, 13) && RunEnds(f, 1)
    ensures Succ(f) == FiveRanks(0, f.r1 + 1, f.r2, f.r3, f.r4)
    ensures Ascending(Succ(f), 14) && (f.r4 <= 12 ==> Ascending(Succ(f), 13))
    ensures ColexIndex(Succ(f)) == ColexIndex(f) + 1
  {
    IndexStep1(f.r0, f.r1);
  }

  lemma SuccIndexAt2(f: FiveRanks)
    requires Ascending(f, 13) && RunEnds(f, 2)
    ensures Succ(f) == FiveRanks(0, 1, f.r2 + 1, f.r3, f.r4)
    ensures Ascending(Succ(f), 14) && (f.r4 <= 12 ==> Ascending(Succ(f), 13))
    ensures ColexIndex(Succ(f)) == ColexIndex(f) + 1
  {
    IndexStep2(f.r0, f.r1, f.r2);
  }

  lemma SuccIndexAt3(f: FiveRanks)
    requires Ascending(f, 13) && RunEnds(f, 3)
    ensures Succ(f) == FiveRanks(0, 1, 2, f.r3 + 1, f.r4)
    ensures Ascending(Succ(f), 14) && (f.r4 <= 12 ==> Ascending(Succ(f), 13))
    ensures ColexIndex(Succ(f)) == ColexIndex(f) + 1
  {
    IndexStep3(f.r0, f.r1, f.r2, f.r3);
  }

  lemma SuccIndexAt4(f: FiveRanks)
    requires Ascending(f, 13) && RunEnds(f, 4)
    ensures Succ(f) == FiveRanks(0, 1, 2, 3, f.r4 + 1)
    ensures Ascending(Succ(f), 14) && (f.r4 <= 12 ==> Ascending(Succ(f), 13))
    ensures ColexIndex(Succ(f)) == ColexIndex(f) + 1
  {
    IndexStep4(f.r0, f.r1, f.r2, f.r3, f.r4);
  }

  /** The successor stays ascending and counts one further. */
  lemma SuccIndex(f: FiveRanks)
    requires Ascending(f, 13)
    ensures Ascending(Succ(f), 14) && (f.r4 <= 12 ==> Ascending(Succ(f), 13))
    ensures ColexIndex(Succ(f)) == ColexIndex(f) + 1
  {
    if RunEnds(f, 0) {
      SuccIndexAt0(f);
    } else if RunEnds(f, 1) {
      SuccIndexAt1(f);
    } else if RunEnds(f, 2) {
      SuccIndexAt2(f);
    } else if RunEnds(f, 3) {
      SuccIndexAt3(f);
    } else {
      SuccIndexAt4(f);
    }
  }




  lemma RunBits0(a: bv8, b: bv8, c: bv8, d: bv8, e: bv8)
    requires a < b < c < d < e <= 12 && b != a + 1
    ensures Bits(a, b, c, d, e) == Run(a, a) | (BitAt(b) | BitAt(c) | BitAt(d) | BitAt(e))
  {
    RunOne(a);
  }

  lemma ClearBelow0(a: bv8, b: bv8, c: bv8, d: bv8, e: bv8)
    requires a < b < c < d < e <= 12 && b != a + 1
    ensures (BitAt(b) | BitAt(c) | BitAt(d) | BitAt(e)) & (BitAt(a + 2) - 1) == 0
  {
    MaskAbove(b, a + 2);
    MaskAbove(c, a + 2);
    MaskAbove(d, a + 2);
    MaskAbove(e, a + 2);
  }

  lemma Refill0(a: bv8, b: bv8, c: bv8, d: bv8, e: bv8)
    requires a < b < c < d < e <= 12
    ensures (BitAt(0) - 1) | BitAt(a + 1) | (BitAt(b) | BitAt(c) | BitAt(d) | BitAt(e)) == Bits(a + 1, b, c, d, e)
  {
  }

  lemma RunBits1(a: bv8, b: bv8, c: bv8, d: bv8, e: bv8)
    requires a < b < c < d < e <= 12 && b == a + 1 && c != b + 1
    ensures Bits(a, b, c, d, e) == Run(a, b) | (BitAt(c) | BitAt(d) | BitAt(e))
  {
    RunOne(a);
    RunGrow(a, a);
  }

  lemma ClearBelow1(a: bv8, b: bv8, c: bv8, d: bv8, e: bv8)
    requires a < b < c < d < e <= 12 && b == a + 1 && c != b + 1
    ensures (BitAt(c) | BitAt(d) | BitAt(e)) & (BitAt(b + 2) - 1) == 0
  {
    MaskAbove(c, b + 2);
    MaskAbove(d, b + 2);
    MaskAbove(e, b + 2);
  }

  lemma Refill1(a: bv8, b: bv8, c: bv8, d: bv8, e: bv8)
    requires a < b < c < d < e <= 12
    ensures (BitAt(1) - 1) | BitAt(b + 1) | (BitAt(c) | BitAt(d) | BitAt(e)) == Bits(0, b + 1, c, d, e)
  {
  }

  lemma RunBits2(a: bv8, b: bv8, c: bv8, d: bv8, e: bv8)
    requires a < b < c < d < e <= 12 && b == a + 1 && c == b + 1 && d != c + 1
    ensures Bits(a, b, c, d, e) == Run(a, c) | (BitAt(d) | BitAt(e))
  {
    RunOne(a);
    RunGrow(a, a);
    RunGrow(a, b);
  }

  lemma ClearBelow2(a: bv8, b: bv8, c: bv8, d: bv8, e: bv8)
    requires a < b < c < d < e <= 12 && b == a + 1 && c == b + 1 && d != c + 1
    ensures (BitAt(d) | BitAt(e)) & (BitAt(c + 2) - 1) == 0
  {
    MaskAbove(d, c + 2);
    MaskAbove(e, c + 2);
  }

  lemma Refill2(a: bv8, b: bv8, c: bv8, d: bv8, e: bv8)
    requires a < b < c < d < e <= 12
    ensures (BitAt(2) - 1) | BitAt(c + 1) | (BitAt(d) | BitAt(e)) == Bits(0, 1, c + 1, d, e)
  {
  }

  lemma RunBits3(a: bv8, b: bv8, c: bv8, d: bv8, e: bv8)
    requires a < b < c < d < e <= 12 && b == a + 1 && c == b + 1 && d == c + 1 && e != d + 1
    ensures Bits(a, b, c, d, e) == Run(a, d) | BitAt(e)
  {
    RunOne(a);
    RunGrow(a, a);
    RunGrow(a, b);
    RunGrow(a, c);
  }

  lemma ClearBelow3(a: bv8, b: bv8, c: bv8, d: bv8, e: bv8)
    requires a < b < c < d < e <= 12 && b == a + 1 && c == b + 1 && d == c + 1 && e != d + 1
    ensures BitAt(e) & (BitAt(d + 2) - 1) == 0
  {
    MaskAbove(e, d + 2);
  }

  lemma Refill3(a: bv8, b: bv8, c: bv8, d: bv8, e: bv8)
    requires a < b < c < d < e <= 12
    ensures (BitAt(3) - 1) | BitAt(d + 1) | BitAt(e) == Bits(0, 1, 2, d + 1, e)
  {
  }

  lemma RunBits4(a: bv8, b: bv8, c: bv8, d: bv8, e: bv8)
    requires a < b < c < d < e <= 12 && b == a + 1 && c == b + 1 && d == c + 1 && e == d + 1
    ensures Bits(a, b, c, d, e) == Run(a, e) | 0
  {
    RunOne(a);
    RunGrow(a, a);
    RunGrow(a, b);
    RunGrow(a, c);
    RunGrow(a, d);
  }

  lemma Refill4(a: bv8, b: bv8, c: bv8, d: bv8, e: bv8)
    requires a < b < c < d < e <= 12
    ensures (BitAt(4) - 1) | BitAt(e + 1) | 0 == Bits(0, 1, 2, 3, e + 1)
  {
  }

  /** What one snoob step needs to know about a pattern `v`: it is a run of
      ones from `lo` to `hi` under the higher bits `h`, nothing of `h` lies at
      or just above the run, and `w` is the run's top bit moved up one place
      with the other `n` ones of the run moved to the bottom. */
  predicate Straddles(v: bv64, h: bv64, lo: bv8, hi: bv8, n: bv8, w: bv64)
  {
    && hi <= 12 && hi == lo + n && lo <= hi
    && h & (BitAt(hi + 2) - 1) == 0
    && v == Run(lo, hi) | h
    && (BitAt(n) - 1) | BitAt(hi + 1) | h == w
  }

  /** One successor step, with the bits above the run and both values held abstract. */
  lemma NextAcrossRun(v: bv64, h: bv64, lo: bv8, hi: bv8, n: bv8, w: bv64)
    requires Straddles(v, h, lo, hi, n, w)
    ensures NextBitSequence(v) == w
  {
    NextOfRun(h, lo, hi, n);
  }

  lemma StraddlesAt0(a: bv8, b: bv8, c: bv8, d: bv8, e: bv8)
    requires a < b < c < d < e <= 12 && b != a + 1
    ensures Straddles(Bits(a, b, c, d, e), (BitAt(b) | BitAt(c) | BitAt(d) | BitAt(e)), a, a, 0, Bits(a + 1, b, c, d, e))
  {
    RunBits0(a, b, c, d, e);
    ClearBelow0(a, b, c, d, e);
    Refill0(a, b, c, d, e);
  }

  lemma NextBits0(a: bv8, b: bv8, c: bv8, d: bv8, e: bv8)
    requires a < b < c < d < e <= 12 && b != a + 1
    ensures NextBitSequence(Bits(a, b, c, d, e)) == Bits(a + 1, b, c, d, e)
  {
    StraddlesAt0(a, b, c, d, e);
    NextAcrossRun(Bits(a, b, c, d, e), (BitAt(b) | BitAt(c) | BitAt(d) | BitAt(e)), a, a, 0, Bits(a + 1, b, c, d, e));
  }

  lemma SuccValAt0(f: FiveRanks)
    requires Ascending(f, 12) && RunEnds(f, 0)
    ensures Ascending(Succ(f), 13)
    ensures NextBitSequence(Val(f)) == Val(Succ(f))
  {
    SuccIndexAt0(f);
    NextBits0(f.r0, f.r1, f.r2, f.r3, f.r4);
  }

  lemma StraddlesAt1(a: bv8, b: bv8, c: bv8, d: bv8, e: bv8)
    requires a < b < c < d < e <= 12 && b == a + 1 && c != b + 1
    ensures Straddles(Bits(a, b, c, d, e), (BitAt(c) | BitAt(d) | BitAt(e)), a, b, 1, Bits(0, b + 1, c, d, e))
  {
    RunBits1(a, b, c, d, e);
    ClearBelow1(a, b, c, d, e);
    Refill1(a, b, c, d, e);
  }

  lemma NextBits1(a: bv8, b: bv8, c: bv8, d: bv8, e: bv8)
    requires a < b < c < d < e <= 12 && b == a + 1 && c != b + 1
    ensures NextBitSequence(Bits(a, b, c, d, e)) == Bits(0, b + 1, c, d, e)
  {
    StraddlesAt1(a, b, c, d, e);
    NextAcrossRun(Bits(a, b, c, d, e), (BitAt(c) | BitAt(d) | BitAt(e)), a, b, 1, Bits(0, b + 1, c, d, e));
  }

  lemma SuccValAt1(f: FiveRanks)
    requires Ascending(f, 12) && RunEnds(f, 1)
    ensures Ascending(Succ(f), 13)
    ensures NextBitSequence(Val(f)) == Val(Succ(f))
  {
    SuccIndexAt1(f);
    NextBits1(f.r0, f.r1, f.r2, f.r3, f.r4);
  }

  lemma StraddlesAt2(a: bv8, b: bv8, c: bv8, d: bv8, e: bv8)
    requires a < b < c < d < e <= 12 && b == a + 1 && c == b + 1 && d != c + 1
    ensures Straddles(Bits(a, b, c, d, e), (BitAt(d) | BitAt(e)), a, c, 2, Bits(0, 1, c + 1, d, e))
  {
    RunBits2(a, b, c, d, e);
    ClearBelow2(a, b, c, d, e);
    Refill2(a, b, c, d, e);
  }

  lemma NextBits2(a: bv8, b: bv8, c: bv8, d: bv8, e: bv8)
    requires a < b < c < d < e <= 12 && b == a + 1 && c == b + 1 && d != c + 1
    ensures NextBitSequence(Bits(a, b, c, d, e)) == Bits(0, 1, c + 1, d, e)
  {
    StraddlesAt2(a, b, c, d, e);
    NextAcrossRun(Bits(a, b, c, d, e), (BitAt(d) | BitAt(e)), a, c, 2, Bits(0, 1, c + 1, d, e));
  }

  lemma SuccValAt2(f: FiveRanks)
    requires Ascending(f, 12) && RunEnds(f, 2)
    ensures Ascending(Succ(f), 13)
    ensures NextBitSequence(Val(f)) == Val(Succ(f))
  {
    SuccIndexAt2(f);
    NextBits2(f.r0, f.r1, f.r2, f.r3, f.r4);
  }

  lemma StraddlesAt3(a: bv8, b: bv8, c: bv8, d: bv8, e: bv8)
    requires a < b < c < d < e <= 12 && b == a + 1 && c == b + 1 && d == c + 1 && e != d + 1
    ensures Straddles(Bits(a, b, c, d, e), BitAt(e), a, d, 3, Bits(0, 1, 2, d + 1, e))
  {
    RunBits3(a, b, c, d, e);
    ClearBelow3(a, b, c, d, e);
    Refill3(a, b, c, d, e);
  }

  lemma NextBits3(a: bv8, b: bv8, c: bv8, d: bv8, e: bv8)
    requires a < b < c < d < e <= 12 && b == a + 1 && c == b + 1 && d == c + 1 && e != d + 1
    ensures NextBitSequence(Bits(a, b, c, d, e)) == Bits(0, 1, 2, d + 1, e)
  {
    StraddlesAt3(a, b, c, d, e);
    NextAcrossRun(Bits(a, b, c, d, e), BitAt(e), a, d, 3, Bits(0, 1, 2, d + 1, e));
  }

  lemma SuccValAt3(f: FiveRanks)
    requires Ascending(f, 12) && RunEnds(f, 3)
    ensures Ascending(Succ(f), 13)
    ensures NextBitSequence(Val(f)) == Val(Succ(f))
  {
    SuccIndexAt3(f);
    NextBits3(f.r0, f.r1, f.r2, f.r3, f.r4);
  }

  lemma StraddlesAt4(a: bv8, b: bv8, c: bv8, d: bv8, e: bv8)
    requires a < b < c < d < e <= 12 && b == a + 1 && c == b + 1 && d == c + 1 && e == d + 1
    ensures Straddles(Bits(a, b, c, d, e), 0, a, e, 4, Bits(0, 1, 2, 3, e + 1))
  {
    RunBits4(a, b, c, d, e);
    Refill4(a, b, c, d, e);
  }

  lemma NextBits4(a: bv8, b: bv8, c: bv8, d: bv8, e: bv8)
    requires a < b < c < d < e <= 12 && b == a + 1 && c == b + 1 && d == c + 1 && e == d + 1
    ensures NextBitSequence(Bits(a, b, c, d, e)) == Bits(0, 1, 2, 3, e + 1)
  {
    StraddlesAt4(a, b, c, d, e);
    NextAcrossRun(Bits(a, b, c, d, e), 0, a, e, 4, Bits(0, 1, 2, 3, e + 1));
  }

  lemma SuccValAt4(f: FiveRanks)
    requires Ascending(f, 12) && RunEnds(f, 4)
    ensures Ascending(Succ(f), 13)
    ensures NextBitSequence(Val(f)) == Val(Succ(f))
  {
    SuccIndexAt4(f);
    NextBits4(f.r0, f.r1, f.r2, f.r3, f.r4);
  }

  /** One step of the snoob trick is one step of `Succ`. */
  lemma SuccVal(f: FiveRanks)
    requires Ascending(f, 12)
    ensures Ascending(Succ(f), 13)
    ensures NextBitSequence(Val(f)) == Val(Succ(f))
  {
    if RunEnds(f, 0) {
      SuccValAt0(f);
    } else if RunEnds(f, 1) {
      SuccValAt1(f);
    } else if RunEnds(f, 2) {
      SuccValAt2(f);
    } else if RunEnds(f, 3) {
      SuccValAt3(f);
    } else {
      SuccValAt4(f);
    }
  }

  /** 0b11111, the pattern the generator loop starts from. */
  const START: FiveRanks := FiveRanks(0, 1, 2, 3, 4)

  lemma StartFacts()
    ensures Ascending(START, 12) && ColexIndex(START) == 0 && Val(START) == 0x1F
  {
  }

  /** The five-subset behind `Generated(n)`: n + 1 successor steps from START. */
  function Enumerated(n: nat): FiveRanks {
    if n == 0 then Succ(START) else Succ(Enumerated(n - 1))
  }

  /** A five-subset counted before C(13, 5) = 1287 lies within the thirteen ranks. */
  lemma WithinThirteen(f: FiveRanks)
    requires Ascending(f, 13) && ColexIndex(f) < 1287
    ensures Ascending(f, 12)
  {
  }

  /** The n-th pattern of the loop is the five-subset with n + 1 before it. */
  predicate Walked(n: nat) {
    && Ascending(Enumerated(n), 13)
    && ColexIndex(Enumerated(n)) == n + 1
    && Generated(n) == Val(Enumerated(n))
  }

  lemma WalkStart()
    ensures Walked(0)
  {
    StartFacts();
    SuccVal(START);
    SuccIndex(START);
  }

  lemma WalkStepIndex(m: nat)
    requires m + 1 < FLUSH_STEPS && Walked(m)
    ensures Ascending(Enumerated(m), 12)
    ensures Ascending(Enumerated(m + 1), 13) && ColexIndex(Enumerated(m + 1)) == m + 2
  {
    WithinThirteen(Enumerated(m));
    SuccIndex(Enumerated(m));
  }

  lemma WalkStep(m: nat)
    requires m + 1 < FLUSH_STEPS && Walked(m)
    ensures Walked(m + 1)
  {
    WalkStepIndex(m);
    SuccVal(Enumerated(m));
  }

  lemma {:induction false} Walk(n: nat)
    requires n < FLUSH_STEPS
    ensures Walked(n)
  {
    if n == 0 {
      WalkStart();
    } else {
      var m := n - 1;
      Walk(m);
      WalkStep(m);
    }
  }

  lemma BitAtBelow(p: bv8)
    requires p <= 12
    ensures 0 < BitAt(p) < 0x2000
  {
  }

  /** Five positions within the thirteen ranks give a nonzero 13-bit pattern. */
  lemma BitsWithin(a: bv8, b: bv8, c: bv8, d: bv8, e: bv8)
    requires a <= 12 && b <= 12 && c <= 12 && d <= 12 && e <= 12
    ensures 0 < Bits(a, b, c, d, e) < 0x2000
  {
    BitAtBelow(a);
    BitAtBelow(b);
    BitAtBelow(c);
    BitAtBelow(d);
    BitAtBelow(e);
  }

  /** Every pattern the loop generates is a nonzero 13-bit pattern. */
  lemma GeneratedWithin(n: nat)
    requires n < FLUSH_STEPS
    ensures 0 < Generated(n) < 0x2000
  {
    Walk(n);
    WithinThirteen(Enumerated(n));
    var f := Enumerated(n);
    BitsWithin(f.r0, f.r1, f.r2, f.r3, f.r4);
  }

  /** The table grows along each column. */
  lemma CoefMono(n: bv8, m: bv8, k: nat)
    requires n <= m <= 14 && k <= 5
    ensures Coef(n, k) <= Coef(m, k)
  {
  }

  /** The terms below position k of a colex index sum to less than the next
      term could be: the combinatorial number system has no carries. */
  lemma Below2(a: bv8, b: bv8)
    requires a < b < 14
    ensures Coef(a, 1) + Coef(b, 2) < Coef(b + 1, 2)
  {
    CoefMono(a + 1, b, 1);
    Pascal(b, 1);
  }

  lemma Below3(a: bv8, b: bv8, c: bv8)
    requires a < b < c < 14
    ensures Coef(a, 1) + Coef(b, 2) + Coef(c, 3) < Coef(c + 1, 3)
  {
    Below2(a, b);
    CoefMono(b + 1, c, 2);
    Pascal(c, 2);
  }

  lemma Below4(a: bv8, b: bv8, c: bv8, d: bv8)
    requires a < b < c < d < 14
    ensures Coef(a, 1) + Coef(b, 2) + Coef(c, 3) + Coef(d, 4) < Coef(d + 1, 4)
  {
    Below3(a, b, c);
    CoefMono(c + 1, d, 3);
    Pascal(d, 3);
  }

  lemma Below5(a: bv8, b: bv8, c: bv8, d: bv8, e: bv8)
    requires a < b < c < d < e < 14
    ensures Coef(a, 1) + Coef(b, 2) + Coef(c, 3) + Coef(d, 4) + Coef(e, 5) < Coef(e + 1, 5)
  {
    Below4(a, b, c, d);
    CoefMono(d + 1, e, 4);
    Pascal(e, 4);
  }

  /** Comparing two colex sums by their top terms. */
  lemma Top2(a: bv8, b: bv8, a': bv8, b': bv8)
    requires a < b < 14 && a' < b' < 14
    ensures b < b' ==> Coef(a, 1) + Coef(b, 2) < Coef(a', 1) + Coef(b', 2)
  {
    if b < b' {
      Below2(a, b);
      CoefMono(b + 1, b', 2);
    }
  }

  lemma Top3(a: bv8, b: bv8, c: bv8, a': bv8, b': bv8, c': bv8)
    requires a < b < c < 14 && a' < b' < c' < 14
    ensures c < c' ==> Coef(a, 1) + Coef(b, 2) + Coef(c, 3) < Coef(a', 1) + Coef(b', 2) + Coef(c', 3)
  {
    if c < c' {
      Below3(a, b, c);
      CoefMono(c + 1, c', 3);
    }
  }

  lemma Top4(a: bv8, b: bv8, c: bv8, d: bv8, a': bv8, b': bv8, c': bv8, d': bv8)
    requires a < b < c < d < 14 && a' < b' < c' < d' < 14
    ensures d < d' ==>
      Coef(a, 1) + Coef(b, 2) + Coef(c, 3) + Coef(d, 4) < Coef(a', 1) + Coef(b', 2) + Coef(c', 3) + Coef(d', 4)
  {
    if d < d' {
      Below4(a, b, c, d);
      CoefMono(d + 1, d', 4);
    }
  }

  lemma Top5(f: FiveRanks, g: FiveRanks)
    requires Ascending(f, 13) && Ascending(g, 13)
    ensures f.r4 < g.r4 ==> ColexIndex(f) < ColexIndex(g)
  {
    if f.r4 < g.r4 {
      Below5(f.r0, f.r1, f.r2, f.r3, f.r4);
      CoefMono(f.r4 + 1, g.r4, 5);
    }
  }

  lemma Same2(a: bv8, b: bv8, a': bv8, b': bv8)
    requires a < b < 14 && a' < b' < 14
    requires Coef(a, 1) + Coef(b, 2) == Coef(a', 1) + Coef(b', 2)
    ensures a == a' && b == b'
  {
    Top2(a, b, a', b');
    Top2(a', b', a, b);
  }

  lemma Same3(a: bv8, b: bv8, c: bv8, a': bv8, b': bv8, c': bv8)
    requires a < b < c < 14 && a' < b' < c' < 14
    requires Coef(a, 1) + Coef(b, 2) + Coef(c, 3) == Coef(a', 1) + Coef(b', 2) + Coef(c', 3)
    ensures a == a' && b == b' && c == c'
  {
    Top3(a, b, c, a', b', c');
    Top3(a', b', c', a, b, c);
    Same2(a, b, a', b');
  }

  lemma Same4(a: bv8, b: bv8, c: bv8, d: bv8, a': bv8, b': bv8, c': bv8, d': bv8)
    requires a < b < c < d < 14 && a' < b' < c' < d' < 14
    requires Coef(a, 1) + Coef(b, 2) + Coef(c, 3) + Coef(d, 4) == Coef(a', 1) + Coef(b', 2) + Coef(c', 3) + Coef(d', 4)
    ensures a == a' && b == b' && c == c' && d == d'
  {
    Top4(a, b, c, d, a', b', c', d');
    Top4(a', b', c', d', a, b, c, d);
    Same3(a, b, c, a', b', c');
  }

  /** Different five-subsets of the fourteen positions have different colex indexes. */
  lemma ColexInjective(f: FiveRanks, g: FiveRanks)
    requires Ascending(f, 13) && Ascending(g, 13) && ColexIndex(f) == ColexIndex(g)
    ensures f == g
  {
    Top5(f, g);
    Top5(g, f);
    Same4(f.r0, f.r1, f.r2, f.r3, g.r0, g.r1, g.r2, g.r3);
  }

  /** A five-subset within the thirteen ranks has colex index below C(13, 5). */
  lemma ColexBelow(g: FiveRanks)
    requires Ascending(g, 13)
    ensures g.r4 <= 12 ==> ColexIndex(g) < 1287
  {
    if g.r4 <= 12 {
      Below5(g.r0, g.r1, g.r2, g.r3, g.r4);
      CoefMono(g.r4 + 1, 13, 5);
    }
  }

  /** A pattern with the bit of position 13 set does not fit in thirteen bits. */
  lemma PastThirteen(a: bv8, b: bv8, c: bv8, d: bv8)
    requires a < b < c < d <= 12
    ensures !(Bits(a, b, c, d, 13) < 0x2000)
  {
  }

  /** The five-subset counted at step n. */
  lemma HitBy(i: nat, f: FiveRanks)
    requires i < FLUSH_STEPS && Ascending(f, 13) && ColexIndex(f) == i + 1
    ensures Generated(i) == Val(f)
  {
    Walk(i);
    ColexInjective(Enumerated(i), f);
  }

  /** The five-subset counted C(13, 5) = 1287 uses position 13. */
  lemma BeyondThirteen(g: FiveRanks)
    requires Ascending(g, 13) && ColexIndex(g) == 1287
    ensures !(Val(g) < 0x2000)
  {
    ColexBelow(g);
    assert g.r4 == 13;
    PastThirteen(g.r0, g.r1, g.r2, g.r3);
  }

  /** The last five-subset of the thirteen ranks steps out of them. */
  lemma PastLast(f: FiveRanks)
    requires Ascending(f, 12) && ColexIndex(f) == 1286
    ensures !(NextBitSequence(Val(f)) < 0x2000)
  {
    SuccVal(f);
    SuccIndex(f);
    BeyondThirteen(Succ(f));
  }

  /** One step past the loop the pattern leaves the thirteen rank bits. */
  lemma Overflow(n: nat)
    requires n == FLUSH_STEPS
    ensures !(Generated(n) < 0x2000)
  {
    Walk(n - 1);
    LastStepOverflows(n - 1);
  }

  /** From the last enumerated pattern, one more step leaves the 13 rank bits. */
  lemma LastStepOverflows(m: nat)
    requires Walked(m) && m + 1 == FLUSH_STEPS
    ensures !(Generated(m + 1) < 0x2000)
  {
    WithinThirteen(Enumerated(m));
    PastLast(Enumerated(m));
    GeneratedNext(m);
  }

  /** The loop's step: each pattern is the successor of the one before. */
  lemma GeneratedNext(n: nat)
    ensures Generated(n + 1) == NextBitSequence(Generated(n))
  {
  }

  /** A sequence each of whose terms is the successor of the one before,
      with every term before `last` within thirteen bits and the term at
      `last` not. */
  ghost predicate Chain(g: nat -> bv64, next: bv64 -> bv64, last: nat) {
    && (forall n: nat :: g(n + 1) == next(g(n)))
    && (forall n: nat :: n < last ==> g(n) < 0x2000)
    && !(g(last) < 0x2000)
  }

  /** Once two of its terms agree such a sequence repeats. */
  lemma {:induction false} Repeats(g: nat -> bv64, next: bv64 -> bv64, i: nat, j: nat, k: nat)
    requires forall n: nat :: g(n + 1) == next(g(n))
    requires g(i) == g(j)
    ensures g(i + k) == g(j + k)
  {
    if k > 0 {
      Repeats(g, next, i, j, k - 1);
      assert g(i + k) == next(g(i + (k - 1)));
      assert g(j + k) == next(g(j + (k - 1)));
    }
  }

  /** So no term before `last` comes twice: the repeat would carry the term
      at `last` back inside thirteen bits. */
  lemma NoRepeat(g: nat -> bv64, next: bv64 -> bv64, last: nat, i: nat, j: nat)
    requires Chain(g, next, last) && i < j < last
    ensures g(i) != g(j)
  {
    if g(i) == g(j) {
      Repeats(g, next, i, j, last - j);
      assert false;
    }
  }

  /** Nor is the value it started from a term before `last`. */
  lemma NeverStart(g: nat -> bv64, next: bv64 -> bv64, last: nat, start: bv64, j: nat)
    requires Chain(g, next, last) && g(0) == next(start) && j < last
    ensures g(j) != start
  {
    if g(j) == start {
      assert g(j + 1) == g(0);
      if j + 1 < last {
        NoRepeat(g, next, last, 0, j + 1);
      }
      assert false;
    }
  }

  /** The generator loop is such a sequence, with `last` one past its end. */
  lemma GeneratedChain(n: nat)
    requires n == FLUSH_STEPS
    ensures Chain(Generated, NextBitSequence, n)
  {
    GeneratedSteps();
    GeneratedBelow();
    Overflow(n);
  }

  lemma GeneratedSteps()
    ensures forall n: nat :: Generated(n + 1) == NextBitSequence(Generated(n))
  {
    forall n: nat ensures Generated(n + 1) == NextBitSequence(Generated(n)) {
      GeneratedNext(n);
    }
  }

  lemma GeneratedBelow()
    ensures forall n: nat :: n < FLUSH_STEPS ==> Generated(n) < 0x2000
  {
    forall n: nat | n < FLUSH_STEPS ensures Generated(n) < 0x2000 {
      GeneratedWithin(n);
    }
  }

  /** The loop never meets a pattern twice. */
  lemma GeneratedDistinct(i: nat, j: nat)
    requires i < j < FLUSH_STEPS
    ensures Generated(i) != Generated(j)
  {
    GeneratedChain(FLUSH_STEPS);
    NoRepeat(Generated, NextBitSequence, FLUSH_STEPS, i, j);
  }

  /** Nor does it meet the lowest straight flush it starts from. */
  lemma NeverLowest(j: nat)
    requires j < FLUSH_STEPS
    ensures Generated(j) != 0x1F
  {
    GeneratedChain(FLUSH_STEPS);
    GeneratedFirst();
    NeverStart(Generated, NextBitSequence, FLUSH_STEPS, 0x1F, j);
  }

  lemma GeneratedFirst()
    ensures Generated(0) == NextBitSequence(0x1F)
  {
  }

  /** The number of steps before n whose pattern is a straight flush. */
  function Dropped(g: nat -> bv64, n: nat): nat {
    if n == 0 then 0 else Dropped(g, n - 1) + (if g(n - 1) in STRAIGHT_FLUSHES then 1 else 0)
  }

  /** The straight flushes met in the steps before n. */
  function Met(g: nat -> bv64, n: nat): set<bv64> {
    if n == 0 then {} else Met(g, n - 1) + (if g(n - 1) in STRAIGHT_FLUSHES then {g(n - 1)} else {})
  }

  /** Every step either keeps its pattern or counts a straight flush. */
  lemma {:induction false} KeptLength(g: nat -> bv64, n: nat)
    ensures |Kept(g, n)| + Dropped(g, n) == n
  {
    if n > 0 {
      KeptLength(g, n - 1);
    }
  }

  /** The steps before `last` give pairwise different patterns. */
  ghost predicate Injective(g: nat -> bv64, last: nat) {
    forall i: nat, j: nat :: i < j < last ==> g(i) != g(j)
  }

  /** A later pattern is neither kept nor met before. */
  lemma {:induction false} Absent(g: nat -> bv64, last: nat, n: nat, j: nat)
    requires Injective(g, last) && n <= j < last
    ensures g(j) !in Kept(g, n) && g(j) !in Met(g, n)
  {
    if n > 0 {
      Absent(g, last, n - 1, j);
    }
  }

  /** A later pattern is not met before. */
  lemma {:induction false} AbsentMet(g: nat -> bv64, last: nat, n: nat, j: nat)
    requires Injective(g, last) && n <= j < last
    ensures g(j) !in Met(g, n)
  {
    if n > 0 {
      AbsentMet(g, last, n - 1, j);
    }
  }

  /** With no pattern repeated, the kept list has no repeat ... */
  lemma {:induction false} KeptDistinct(g: nat -> bv64, last: nat, n: nat)
    requires Injective(g, last) && n <= last
    ensures Distinct(Kept(g, n))
  {
    if n > 0 {
      KeptDistinct(g, last, n - 1);
      Absent(g, last, n - 1, n - 1);
    }
  }

  /** ... and each straight flush met is met once. */
  lemma {:induction false} MetCount(g: nat -> bv64, last: nat, n: nat)
    requires Injective(g, last) && n <= last
    ensures |Met(g, n)| == Dropped(g, n)
  {
    if n > 0 {
      MetCount(g, last, n - 1);
      AbsentMet(g, last, n - 1, n - 1);
      MetStep(g, n);
    }
  }

  /** One step of MetCount: a straight flush not met before adds one to both sides. */
  lemma MetStep(g: nat -> bv64, n: nat)
    requires n > 0 && g(n - 1) !in Met(g, n - 1) && |Met(g, n - 1)| == Dropped(g, n - 1)
    ensures |Met(g, n)| == Dropped(g, n)
  {
    var x, before := g(n - 1), Met(g, n - 1);
    if x in STRAIGHT_FLUSHES {
      assert Met(g, n) == before + {x};
    } else {
      assert Met(g, n) == before;
    }
  }

  /** Kept patterns lie within thirteen bits when all patterns do. */
  lemma {:induction false} KeptWithin(g: nat -> bv64, last: nat, n: nat)
    requires (forall i: nat :: i < last ==> g(i) < 0x2000) && n <= last
    ensures forall k :: 0 <= k < |Kept(g, n)| ==> Kept(g, n)[k] < 0x2000
  {
    if n > 0 {
      KeptWithin(g, last, n - 1);
    }
  }

  /** Only straight flushes other than `start` are met when `start` never comes. */
  lemma {:induction false} MetWithin(g: nat -> bv64, last: nat, start: bv64, n: nat)
    requires (forall i: nat :: i < last ==> g(i) != start) && n <= last
    ensures forall x :: x in Met(g, n) ==> x in STRAIGHT_FLUSHES && x != start
  {
    if n > 0 {
      MetWithin(g, last, start, n - 1);
    }
  }

  /** A straight flush at step i is met by every later step. */
  lemma {:induction false} MetKeeps(g: nat -> bv64, n: nat, i: nat)
    requires i < n && g(i) in STRAIGHT_FLUSHES
    ensures g(i) in Met(g, n)
  {
    if i < n - 1 {
      MetKeeps(g, n - 1, i);
    }
  }

  /** The loop's patterns are pairwise different ... */
  lemma GeneratedInjective()
    ensures Injective(Generated, FLUSH_STEPS)
  {
    forall i: nat, j: nat | i < j < FLUSH_STEPS ensures Generated(i) != Generated(j) {
      GeneratedDistinct(i, j);
    }
  }

  /** The steps at which a run meets the nine straight flushes above the lowest. */
  ghost predicate MeetsStraights(g: nat -> bv64) {
    && g(1285) == 7936 && g(790) == 3968 && g(460) == 1984 && g(250) == 992 && g(124) == 496
    && g(54) == 248 && g(19) == 124 && g(4) == 62 && g(791) == 4111
  }

  /** Every five-subset of the thirteen ranks is the pattern at the step
      its colex index gives. */
  ghost predicate Enumerates(g: nat -> bv64, last: nat) {
    forall i: nat, f: FiveRanks :: i < last && Ascending(f, 13) && ColexIndex(f) == i + 1 ==> g(i) == Val(f)
  }

  lemma GeneratedEnumerates()
    ensures Enumerates(Generated, FLUSH_STEPS)
  {
    forall i: nat, f: FiveRanks | i < FLUSH_STEPS && Ascending(f, 13) && ColexIndex(f) == i + 1
      ensures Generated(i) == Val(f)
    {
      HitBy(i, f);
    }
  }

  lemma EnumeratedAt(g: nat -> bv64, n: nat, i: nat, f: FiveRanks)
    requires Enumerates(g, n) && i < n && Ascending(f, 13) && ColexIndex(f) == i + 1
    ensures g(i) == Val(f)
  {
  }

  /** So such a run meets the straight flushes at the steps their colex indexes give. */
  lemma EnumeratesStraights(g: nat -> bv64, n: nat)
    requires n == FLUSH_STEPS && Enumerates(g, n)
    ensures MeetsStraights(g)
  {
    StraightAt1285(g, n);
    StraightAt790(g, n);
    StraightAt460(g, n);
    StraightAt250(g, n);
    StraightAt124(g, n);
    StraightAt54(g, n);
    StraightAt19(g, n);
    StraightAt4(g, n);
    StraightAt791(g, n);
  }

  lemma StraightAt1285(g: nat -> bv64, n: nat)
    requires n == FLUSH_STEPS && Enumerates(g, n)
    ensures g(1285) == 7936
  {
    EnumeratedAt(g, n, 1285, FiveRanks(8, 9, 10, 11, 12));
  }

  lemma StraightAt790(g: nat -> bv64, n: nat)
    requires n == FLUSH_STEPS && Enumerates(g, n)
    ensures g(790) == 3968
  {
    EnumeratedAt(g, n, 790, FiveRanks(7, 8, 9, 10, 11));
  }

  lemma StraightAt460(g: nat -> bv64, n: nat)
    requires n == FLUSH_STEPS && Enumerates(g, n)
    ensures g(460) == 1984
  {
    EnumeratedAt(g, n, 460, FiveRanks(6, 7, 8, 9, 10));
  }

  lemma StraightAt250(g: nat -> bv64, n: nat)
    requires n == FLUSH_STEPS && Enumerates(g, n)
    ensures g(250) == 992
  {
    EnumeratedAt(g, n, 250, FiveRanks(5, 6, 7, 8, 9));
  }

  lemma StraightAt124(g: nat -> bv64, n: nat)
    requires n == FLUSH_STEPS && Enumerates(g, n)
    ensures g(124) == 496
  {
    EnumeratedAt(g, n, 124, FiveRanks(4, 5, 6, 7, 8));
  }

  lemma StraightAt54(g: nat -> bv64, n: nat)
    requires n == FLUSH_STEPS && Enumerates(g, n)
    ensures g(54) == 248
  {
    EnumeratedAt(g, n, 54, FiveRanks(3, 4, 5, 6, 7));
  }

  lemma StraightAt19(g: nat -> bv64, n: nat)
    requires n == FLUSH_STEPS && Enumerates(g, n)
    ensures g(19) == 124
  {
    EnumeratedAt(g, n, 19, FiveRanks(2, 3, 4, 5, 6));
  }

  lemma StraightAt4(g: nat -> bv64, n: nat)
    requires n == FLUSH_STEPS && Enumerates(g, n)
    ensures g(4) == 62
  {
    EnumeratedAt(g, n, 4, FiveRanks(1, 2, 3, 4, 5));
  }

  lemma StraightAt791(g: nat -> bv64, n: nat)
    requires n == FLUSH_STEPS && Enumerates(g, n)
    ensures g(791) == 4111
  {
    EnumeratedAt(g, n, 791, FiveRanks(0, 1, 2, 3, 12));
  }

  /** Such a run meets the nine straight flushes above the lowest ... */
  lemma NineMet(g: nat -> bv64, n: nat)
    requires n == FLUSH_STEPS && MeetsStraights(g)
    ensures Nine(Met(g, n))
  {
    MetKeeps(g, n, 1285);
    MetKeeps(g, n, 790);
    MetKeeps(g, n, 460);
    MetKeeps(g, n, 250);
    MetKeeps(g, n, 124);
    MetKeeps(g, n, 54);
    MetKeeps(g, n, 19);
    MetKeeps(g, n, 4);
    MetKeeps(g, n, 791);
  }

  /** ... and no other pattern that is a straight flush. */
  lemma OnlyNineMet(g: nat -> bv64, n: nat)
    requires forall i: nat :: i < n ==> g(i) != 0x1F
    ensures Met(g, n) <= NINE_STRAIGHTS
  {
    MetWithin(g, n, 0x1F, n);
  }

  /** The straight flushes other than the lowest. */
  const NINE_STRAIGHTS: set<bv64> := {7936, 3968, 1984, 992, 496, 248, 124, 62, 4111}

  /** The set holds the nine straight flushes above the lowest. */
  ghost predicate Nine(s: set<bv64>) {
    && 7936 in s && 3968 in s && 1984 in s && 992 in s && 496 in s
    && 248 in s && 124 in s && 62 in s && 4111 in s
  }

  /** A set of straight flushes other than the lowest that holds all nine has nine elements. */
  lemma NineStraights(s: set<bv64>)
    requires Nine(s) && s <= NINE_STRAIGHTS
    ensures |s| == 9
  {
    assert s == NINE_STRAIGHTS;
  }

  /** So it drops nine patterns and keeps 1277. */
  lemma KeptCount(g: nat -> bv64, n: nat)
    requires n == FLUSH_STEPS && Enumerates(g, n) && Injective(g, n)
    requires forall i: nat :: i < n ==> g(i) != 0x1F
    ensures |Kept(g, n)| == 1277
  {
    EnumeratesStraights(g, n);
    NineMet(g, n);
    OnlyNineMet(g, n);
    NineStraights(Met(g, n));
    MetCount(g, n, n);
    KeptLength(g, n);
  }

  lemma UnreversedCount(n: nat)
    requires n == FLUSH_STEPS
    ensures |Unreversed(n)| == 1277
  {
    GeneratedEnumerates();
    GeneratedInjective();
    forall i: nat | i < n ensures Generated(i) != 0x1F {
      NeverLowest(i);
    }
    KeptCount(Generated, n);
  }

  /** The generator's list before `flushes.reverse()`: 1277 distinct 13-bit
      patterns, none a straight flush. */
  lemma UnreversedShape(n: nat)
    requires n == FLUSH_STEPS
    ensures |Unreversed(n)| == 1277 && Distinct(Unreversed(n))
    ensures Patterns13(Unreversed(n)) && NoStraightFlush(Unreversed(n))
  {
    UnreversedCount(n);
    GeneratedInjective();
    KeptDistinct(Generated, n, n);
    forall i: nat | i < n ensures Generated(i) < 0x2000 {
      GeneratedWithin(i);
    }
    KeptWithin(Generated, n, n);
    KeptNotStraight(Generated, n);
  }

  /** Reversing keeps each of these properties. */
  lemma ReverseShape(s: seq<bv64>)
    ensures Distinct(s) ==> Distinct(Reverse(s))
    ensures Patterns13(s) ==> Patterns13(Reverse(s))
    ensures NoStraightFlush(s) ==> NoStraightFlush(Reverse(s))
  {
    var r := Reverse(s);
    if Distinct(s) {
      forall i, j | 0 <= i < j < |r| ensures r[i] != r[j] {
        assert r[i] == s[|s| - 1 - i] && r[j] == s[|s| - 1 - j];
      }
    }
  }

  /** The list `flushes` ranks: 1277 distinct 13-bit patterns, none a straight flush. */
  lemma FlushPatternsShape()
    ensures |FLUSH_PATTERNS| == 1277 && Distinct(FLUSH_PATTERNS)
    ensures Patterns13(FLUSH_PATTERNS) && NoStraightFlush(FLUSH_PATTERNS)
  {
    ReversedShape(FLUSH_STEPS);
  }

  /** FlushPatternsShape with the step count kept a variable. */
  lemma ReversedShape(n: nat)
    requires n == FLUSH_STEPS
    ensures |Reverse(Unreversed(n))| == 1277 && Distinct(Reverse(Unreversed(n)))
    ensures Patterns13(Reverse(Unreversed(n))) && NoStraightFlush(Reverse(Unreversed(n)))
  {
    UnreversedShape(n);
    ReverseShape(Unreversed(n));
  }
}
