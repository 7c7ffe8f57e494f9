/** The two prime-product keys of woker/src/main.rs:
    `prime_product_from_rankbits` (404-434) and `prime_product_from_hand`
    (436-447), with the fact that makes them usable as hash keys: a product
    of rank primes determines the multiset of ranks. */
module PrimeProducts {
  import opened PokerCard
  import opened PrimeFactors

  /** Every rank index is a rank; all ranks below 13. */
  predicate AllRanks(rs: seq<nat>) {
    forall i :: 0 <= i < |rs| ==> rs[i] < 13
  }

  /** The product of the rank primes of a list of ranks. */
  function RankProduct(rs: seq<nat>): (p: nat)
    requires AllRanks(rs)
    ensures p >= 1
  {
    if rs == [] then 1 else PrimeOf(rs[0]) * RankProduct(rs[1..])
  }

  /** The mask `1 << i` for a rank i (see BitIsShift). */
  function Bit(i: nat): bv64
    requires i < 13
  {
    if i == 0 then 1 else if i == 1 then 2 else if i == 2 then 4 else if i == 3 then 8
    else if i == 4 then 16 else if i == 5 then 32 else if i == 6 then 64 else if i == 7 then 128
    else if i == 8 then 256 else if i == 9 then 512 else if i == 10 then 1024 else if i == 11 then 2048
    else 4096
  }

  lemma BitIsShift(i: nat)
    requires i < 13
    ensures Bit(i) == 1 << (i as bv64)
  {
  }

  /** Bit i of a bit pattern, as the source tests it: `bits & (1 << i) != 0`. */
  predicate HasBit(bits: bv64, i: nat)
    requires i < 13
  {
    bits & Bit(i) != 0
  }

  /** The factor bit i contributes to the rank-bits product. */
  function BitFactor(bits: bv64, i: nat): (f: nat)
    requires i < 13
    ensures f >= 1
  {
    if HasBit(bits, i) then PrimeOf(i) else 1
  }

  /** Product of PRIMES[i] over the set bits i < n of `bits`. */
  function RankbitsProduct(bits: bv64, n: nat): (p: nat)
    requires n <= 13
    ensures p >= 1
  {
    if n == 0 then 1
    else RankbitsProduct(bits, n - 1) * BitFactor(bits, n - 1)
  }

  /** `prime_product_from_rankbits`: multiply in the prime of every set bit
      among the 13 rank bits. */
  method PrimeProductFromRankbits(rankbits: bv64) returns (product: int)
    ensures product == RankbitsProduct(rankbits, 13)
  {
    product := 1;
    var i := 0;
    while i < 13
      invariant i <= 13
      invariant product == RankbitsProduct(rankbits, i)
    {
      if HasBit(rankbits, i) {
        product := product * PrimeOf(i);
      }
      i := i + 1;
    }
  }

  /** Product of the low bytes of a list of cards. */
  function HandProduct(cards: seq<Card>): (p: nat)
  {
    if cards == [] then 1 else HandProduct(cards[..|cards| - 1]) * (Prime(cards[|cards| - 1]) as nat)
  }

  /** `prime_product_from_hand`: multiply in `c & 0xFF` for every card. */
  method PrimeProductFromHand(cards: seq<Card>) returns (product: int)
    ensures product == HandProduct(cards)
  {
    product := 1;
    var i := 0;
    while i < |cards|
      invariant i <= |cards|
      invariant product == HandProduct(cards[..i])
    {
      assert cards[..i + 1][..i] == cards[..i];
      product := product * (Prime(cards[i]) as nat);
      i := i + 1;
    }
    assert cards[..i] == cards;
  }

  /** The rank of a card built by `card`, as a number. */
  function RankOf(c: Card): (r: nat)
    requires ValidCard(c)
    ensures r < 13 && r == Rank(c) as nat
  {
    Rank(c) as nat
  }

  /** The ranks of a list of cards. */
  function Ranks(cards: seq<Card>): (rs: seq<nat>)
    requires forall i :: 0 <= i < |cards| ==> ValidCard(cards[i])
    ensures |rs| == |cards| && AllRanks(rs)
    ensures forall i :: 0 <= i < |cards| ==> rs[i] == RankOf(cards[i])
  {
    seq(|cards|, i requires 0 <= i < |cards| => RankOf(cards[i]))
  }

  /** On cards built by `card`, the hand product is the product of the rank
      primes: the low byte of a card is the prime of its rank. */
  lemma {:induction false} HandProductOfCards(cards: seq<Card>)
    requires forall i :: 0 <= i < |cards| ==> ValidCard(cards[i])
    ensures HandProduct(cards) == RankProduct(Ranks(cards))
  {
    if cards != [] {
      var n := |cards| - 1;
      var front, c := cards[..n], cards[n];
      var r := RankOf(c);
      assert HandProduct(cards) == HandProduct(front) * PrimeOf(r) by {
        CardPrime(c);
      }
      RanksAppend(cards);
      HandProductOfCards(front);
      RankProductAppend(Ranks(front), r);
    }
  }

  lemma RanksAppend(cards: seq<Card>)
    requires cards != [] && forall i :: 0 <= i < |cards| ==> ValidCard(cards[i])
    ensures Ranks(cards) == Ranks(cards[..|cards| - 1]) + [RankOf(cards[|cards| - 1])]
  {
  }

  /** The low byte of a card is the prime of its rank. */
  lemma CardPrime(c: Card)
    requires ValidCard(c)
    ensures Prime(c) as nat == PrimeOf(RankOf(c))
  {
    EncodeFields(Rank(c), Suit(c));
  }

  lemma {:induction false} RankProductAppend(rs: seq<nat>, r: nat)
    requires AllRanks(rs) && r < 13
    ensures RankProduct(rs + [r]) == RankProduct(rs) * PrimeOf(r)
  {
    if rs != [] {
      var tail := rs[1..];
      assert (rs + [r])[1..] == tail + [r];
      RankProductAppend(tail, r);
      MulAssoc(PrimeOf(rs[0]), RankProduct(tail), PrimeOf(r));
    }
  }

  // ---------------------------------------------------------------------
  // Unique factorisation over the thirteen rank primes.

  lemma SmallPrimesA() ensures IsPrime(2) && IsPrime(3) && IsPrime(5) && IsPrime(7) && IsPrime(11) && IsPrime(13) {}
  lemma SmallPrimesB() ensures IsPrime(17) {}
  lemma SmallPrimesC() ensures IsPrime(19) {}
  lemma SmallPrimesD() ensures IsPrime(23) {}
  lemma SmallPrimesE() ensures IsPrime(29) {}
  lemma SmallPrimesF() ensures IsPrime(31) {}
  lemma SmallPrimesG() ensures IsPrime(37) {}
  lemma SmallPrimesH() ensures IsPrime(41) {}

  lemma RankPrimeIsPrime(i: nat)
    requires i < 13
    ensures IsPrime(PrimeOf(i))
  {
    SmallPrimesA(); SmallPrimesB(); SmallPrimesC(); SmallPrimesD();
    SmallPrimesE(); SmallPrimesF(); SmallPrimesG(); SmallPrimesH();
  }

  /** The rank primes increase strictly with the rank. */
  lemma RankPrimesIncrease(i: nat, j: nat)
    requires i < j < 13
    ensures PrimeOf(i) < PrimeOf(j)
  {
  }

  /** A rank prime divides a rank product only if the rank occurs. */
  lemma {:induction false} PrimeInProduct(r: nat, rs: seq<nat>)
    requires r < 13 && AllRanks(rs) && RankProduct(rs) % PrimeOf(r) == 0
    ensures r in rs
  {
    if rs == [] {
      ModOfSmaller(1, PrimeOf(r));
    } else if PrimeOf(rs[0]) % PrimeOf(r) == 0 {
      RankPrimeDividesRankPrime(r, rs[0]);
    } else {
      assert RankProduct(rs[1..]) % PrimeOf(r) == 0 by {
        RankPrimeIsPrime(r);
        PrimeDividesFactor(PrimeOf(r), PrimeOf(rs[0]), RankProduct(rs[1..]));
      }
      PrimeInProduct(r, rs[1..]);
    }
  }

  lemma RankPrimeDividesRankPrime(r: nat, s: nat)
    requires r < 13 && s < 13 && PrimeOf(s) % PrimeOf(r) == 0
    ensures r == s
  {
    RankPrimeIsPrime(r);
    RankPrimeIsPrime(s);
    PrimeDividesPrime(PrimeOf(r), PrimeOf(s));
    if r < s { RankPrimesIncrease(r, s); }
    if s < r { RankPrimesIncrease(s, r); }
  }

  /** Taking one rank out of a product divides its prime out. */
  lemma {:induction false} RankProductRemove(rs: seq<nat>, j: nat)
    requires AllRanks(rs) && j < |rs|
    ensures RankProduct(rs) == PrimeOf(rs[j]) * RankProduct(rs[..j] + rs[j + 1..])
  {
    if j > 0 {
      var tail := rs[1..];
      var rest := tail[..j - 1] + tail[j..];
      var p0, pj, r := PrimeOf(rs[0]), PrimeOf(rs[j]), RankProduct(rest);
      assert RankProduct(rs) == p0 * (pj * r) by {
        RankProductRemove(tail, j - 1);
        assert tail[j - 1] == rs[j];
        assert RankProduct(tail) == pj * r;
        assert RankProduct(rs) == p0 * RankProduct(tail);
      }
      assert RankProduct(rs[..j] + rs[j + 1..]) == p0 * r by {
        assert rs[..j] + rs[j + 1..] == [rs[0]] + rest;
        assert ([rs[0]] + rest)[1..] == rest;
      }
      MulSwap(p0, pj, r);
    } else {
      assert rs[..0] + rs[1..] == rs[1..];
    }
  }

  lemma CancelFactor(p: nat, x: int, y: int)
    requires p > 0 && p * x == p * y
    ensures x == y
  {
    ModOfMultiple(p, x);
    ModOfMultiple(p, y);
  }

  lemma ProductAtLeast(p: nat, x: nat)
    requires p >= 2 && x >= 1
    ensures p * x >= 2
  {
  }

  /** Equal products come from equal multisets of ranks. */
  lemma {:induction false} SameProductSameRanks(a: seq<nat>, b: seq<nat>)
    requires AllRanks(a) && AllRanks(b) && RankProduct(a) == RankProduct(b)
    ensures multiset(a) == multiset(b)
    decreases |a|
  {
    if a == [] {
      EmptyProduct(b);
    } else {
      var j := FirstRankOccurs(a, b);
      CancelRank(a, b, j);
      SameProductSameRanks(a[1..], b[..j] + b[j + 1..]);
      MultisetStep(a, b, j);
    }
  }

  /** Only the empty list has product 1. */
  lemma EmptyProduct(b: seq<nat>)
    requires AllRanks(b) && RankProduct(b) == 1
    ensures b == []
  {
    if b != [] {
      ProductAtLeast(PrimeOf(b[0]), RankProduct(b[1..]));
    }
  }

  /** The first rank of a list occurs in every list with the same product. */
  lemma FirstRankOccurs(a: seq<nat>, b: seq<nat>) returns (j: nat)
    requires AllRanks(a) && AllRanks(b) && a != [] && RankProduct(a) == RankProduct(b)
    ensures j < |b| && b[j] == a[0]
  {
    ModOfMultiple(PrimeOf(a[0]), RankProduct(a[1..]));
    PrimeInProduct(a[0], b);
    j :| 0 <= j < |b| && b[j] == a[0];
  }

  /** Dividing the same rank prime out of two equal products. */
  lemma CancelRank(a: seq<nat>, b: seq<nat>, j: nat)
    requires AllRanks(a) && AllRanks(b) && a != [] && j < |b| && b[j] == a[0]
    requires RankProduct(a) == RankProduct(b)
    ensures AllRanks(b[..j] + b[j + 1..])
    ensures RankProduct(a[1..]) == RankProduct(b[..j] + b[j + 1..])
  {
    RankProductRemove(b, j);
    CancelFactor(PrimeOf(a[0]), RankProduct(a[1..]), RankProduct(b[..j] + b[j + 1..]));
  }

  lemma MultisetStep<T>(a: seq<T>, b: seq<T>, j: nat)
    requires a != [] && j < |b| && b[j] == a[0]
    requires multiset(a[1..]) == multiset(b[..j] + b[j + 1..])
    ensures multiset(a) == multiset(b)
  {
    assert a == [a[0]] + a[1..];
    assert b == b[..j] + [b[j]] + b[j + 1..];
  }

  /** Reordering the ranks does not change the product. */
  lemma {:induction false} SameRanksSameProduct(a: seq<nat>, b: seq<nat>)
    requires AllRanks(a) && AllRanks(b) && multiset(a) == multiset(b)
    ensures RankProduct(a) == RankProduct(b)
    decreases |a|
  {
    if a == [] {
      assert |b| == |multiset(b)| == |multiset(a)| == 0;
    } else {
      var j := MultisetUnstep(a, b);
      SameRanksSameProduct(a[1..], b[..j] + b[j + 1..]);
      RankProductRemove(b, j);
      assert RankProduct(a) == PrimeOf(a[0]) * RankProduct(a[1..]);
    }
  }

  /** Removing the first element of `a` and one equal element of `b` keeps
      the multisets equal. */
  lemma MultisetUnstep<T>(a: seq<T>, b: seq<T>) returns (j: nat)
    requires a != [] && multiset(a) == multiset(b)
    ensures j < |b| && b[j] == a[0]
    ensures multiset(a[1..]) == multiset(b[..j] + b[j + 1..])
  {
    assert a == [a[0]] + a[1..];
    assert a[0] in multiset(b);
    j :| 0 <= j < |b| && b[j] == a[0];
    assert b == b[..j] + [b[j]] + b[j + 1..];
    assert multiset(b) == multiset(b[..j]) + multiset{b[j]} + multiset(b[j + 1..]);
    assert multiset(b[..j] + b[j + 1..]) == multiset(b[..j]) + multiset(b[j + 1..]);
    assert multiset(a) == multiset{a[0]} + multiset(a[1..]);
    assert multiset(a[1..]) == multiset(a) - multiset{a[0]};
  }

  /** Two lists of ranks have the same product exactly when they hold the
      same ranks with the same multiplicities. */
  lemma RankProductInjective(a: seq<nat>, b: seq<nat>)
    requires AllRanks(a) && AllRanks(b)
    ensures RankProduct(a) == RankProduct(b) <==> multiset(a) == multiset(b)
  {
    if RankProduct(a) == RankProduct(b) {
      SameProductSameRanks(a, b);
    }
    if multiset(a) == multiset(b) {
      SameRanksSameProduct(a, b);
    }
  }

  /** The ranks whose bits are set among the lowest n bits of `bits`, lowest first. */
  function BitRanks(bits: bv64, n: nat): (rs: seq<nat>)
    requires n <= 13
    ensures AllRanks(rs)
    ensures forall i: nat :: i in rs <==> i < n && HasBit(bits, i)
  {
    if n == 0 then []
    else BitRanks(bits, n - 1) + (if HasBit(bits, n - 1) then [n - 1] else [])
  }

  /** Every rank occurs at most once among the set bits. */
  lemma {:induction false} BitRanksIncreasing(bits: bv64, n: nat)
    requires n <= 13
    ensures forall a, b :: 0 <= a < b < |BitRanks(bits, n)| ==> BitRanks(bits, n)[a] < BitRanks(bits, n)[b]
  {
    if n > 0 {
      BitRanksIncreasing(bits, n - 1);
      var rs := BitRanks(bits, n - 1);
      if HasBit(bits, n - 1) {
        forall a | 0 <= a < |rs| ensures rs[a] < n - 1 {
          assert rs[a] in rs;
        }
      }
    }
  }

  /** `prime_product_from_rankbits` multiplies the primes of exactly the set ranks. */
  lemma {:induction false} RankbitsAsRankProduct(bits: bv64, n: nat)
    requires n <= 13
    ensures RankbitsProduct(bits, n) == RankProduct(BitRanks(bits, n))
  {
    if n > 0 {
      var rs := BitRanks(bits, n - 1);
      RankbitsAsRankProduct(bits, n - 1);
      assert RankbitsProduct(bits, n) == RankProduct(rs) * BitFactor(bits, n - 1);
      if HasBit(bits, n - 1) {
        assert BitRanks(bits, n) == rs + [n - 1];
        RankProductAppend(rs, n - 1);
      } else {
        assert BitRanks(bits, n) == rs;
      }
    }
  }

  /** Two 13-bit patterns with the same set bits are equal. */
  lemma SameLowBits(a: bv64, b: bv64)
    requires a < 0x2000 && b < 0x2000
    requires forall i :: 0 <= i < 13 ==> (HasBit(a, i) <==> HasBit(b, i))
    ensures a == b
  {
    assert (a & 1 == 0) == (b & 1 == 0) by { assert HasBit(a, 0) == HasBit(b, 0); }
    assert (a & 2 == 0) == (b & 2 == 0) by { assert HasBit(a, 1) == HasBit(b, 1); }
    assert (a & 4 == 0) == (b & 4 == 0) by { assert HasBit(a, 2) == HasBit(b, 2); }
    assert (a & 8 == 0) == (b & 8 == 0) by { assert HasBit(a, 3) == HasBit(b, 3); }
    assert (a & 16 == 0) == (b & 16 == 0) by { assert HasBit(a, 4) == HasBit(b, 4); }
    assert (a & 32 == 0) == (b & 32 == 0) by { assert HasBit(a, 5) == HasBit(b, 5); }
    assert (a & 64 == 0) == (b & 64 == 0) by { assert HasBit(a, 6) == HasBit(b, 6); }
    assert (a & 128 == 0) == (b & 128 == 0) by { assert HasBit(a, 7) == HasBit(b, 7); }
    assert (a & 256 == 0) == (b & 256 == 0) by { assert HasBit(a, 8) == HasBit(b, 8); }
    assert (a & 512 == 0) == (b & 512 == 0) by { assert HasBit(a, 9) == HasBit(b, 9); }
    assert (a & 1024 == 0) == (b & 1024 == 0) by { assert HasBit(a, 10) == HasBit(b, 10); }
    assert (a & 2048 == 0) == (b & 2048 == 0) by { assert HasBit(a, 11) == HasBit(b, 11); }
    assert (a & 4096 == 0) == (b & 4096 == 0) by { assert HasBit(a, 12) == HasBit(b, 12); }
    MasksDetermine(a, b);
  }

  lemma MasksDetermine(a: bv64, b: bv64)
    requires a < 0x2000 && b < 0x2000
    requires (a & 1 == 0) == (b & 1 == 0) && (a & 2 == 0) == (b & 2 == 0) && (a & 4 == 0) == (b & 4 == 0) && (a & 8 == 0) == (b & 8 == 0)
    requires (a & 16 == 0) == (b & 16 == 0) && (a & 32 == 0) == (b & 32 == 0) && (a & 64 == 0) == (b & 64 == 0) && (a & 128 == 0) == (b & 128 == 0)
    requires (a & 256 == 0) == (b & 256 == 0) && (a & 512 == 0) == (b & 512 == 0) && (a & 1024 == 0) == (b & 1024 == 0) && (a & 2048 == 0) == (b & 2048 == 0)
    requires (a & 4096 == 0) == (b & 4096 == 0)
    ensures a == b
  {
  }

  /** Distinct 13-bit rank patterns have distinct prime products, so the
      flush and straight keys never collide. */
  lemma RankbitsKeyInjective(a: bv64, b: bv64)
    requires a < 0x2000 && b < 0x2000
    ensures RankbitsProduct(a, 13) == RankbitsProduct(b, 13) <==> a == b
  {
    if RankbitsProduct(a, 13) == RankbitsProduct(b, 13) {
      RankbitsAsRankProduct(a, 13);
      RankbitsAsRankProduct(b, 13);
      RankProductInjective(BitRanks(a, 13), BitRanks(b, 13));
      forall i | 0 <= i < 13 ensures HasBit(a, i) <==> HasBit(b, i) {
        assert i in BitRanks(a, 13) <==> i in multiset(BitRanks(a, 13));
        assert i in BitRanks(b, 13) <==> i in multiset(BitRanks(b, 13));
      }
      SameLowBits(a, b);
    }
  }
}
