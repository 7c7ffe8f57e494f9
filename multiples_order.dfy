/** What `multiples` (woker/src/main.rs:577-666) achieves over the thirteen
    ranks: each block inserts exactly as many keys as its rank range is wide,
    no key belongs to two blocks (a key determines its hand's shape), no key
    of a block is the product of five different ranks (so the straights and
    high cards already in `unsuited_lookup` survive), and so the j-th key of
    a block ends up ranked j places below the block's best rank. */
module MultiplesOrder {
  import opened PokerCard
  import opened PrimeProducts
  import opened Combinatorics
  import opened LookupTables
  import opened Multiples
  import opened MultiplesRanks

  /** The rank list the blocks run over: all thirteen ranks, ace first. */
  predicate FullRanks(ranks: seq<nat>) {
    |ranks| == 13 && AllRanks(ranks) && Descending(ranks)
  }

  lemma BackwardsFull()
    ensures FullRanks(BACKWARDS_RANKS)
  {
    BackwardsRanks();
  }

  /** Removing one of the thirteen ranks leaves twelve. */
  lemma KickersOfFull(ranks: seq<nat>, x: nat)
    requires FullRanks(ranks) && x in ranks
    ensures |Kickers(ranks, x)| == 12
  {
    DescendingDistinct(ranks);
    WithoutLength(ranks, x);
  }

  // Block sizes: each equals the width of the block's rank range.

  lemma HalfOf(n: nat, c: nat)
    requires 2 * c == n * (n - 1)
    ensures n == 12 ==> c == 66
    ensures n == 13 ==> c == 78
  {
  }

  lemma SixthOf(n: nat, c: nat)
    requires 6 * c == n * (n - 1) * (n - 2)
    ensures n == 12 ==> c == 220
  {
  }

  /** The pairs of kickers that go with one of the thirteen ranks. */
  lemma KickerPairsOfFull(ranks: seq<nat>, x: nat)
    requires FullRanks(ranks) && x in ranks
    ensures |RankCombinations(Kickers(ranks, x), 2)| == 66
  {
    var kickers := Kickers(ranks, x);
    KickersOfFull(ranks, x);
    CombinationsPairs(kickers);
    HalfOf(|kickers|, |Combinations(kickers, 2)|);
  }

  /** The triples of kickers that go with one of the thirteen ranks. */
  lemma KickerTriplesOfFull(ranks: seq<nat>, x: nat)
    requires FullRanks(ranks) && x in ranks
    ensures |RankCombinations(Kickers(ranks, x), 3)| == 220
  {
    var kickers := Kickers(ranks, x);
    KickersOfFull(ranks, x);
    CombinationsTriples(kickers);
    SixthOf(|kickers|, |Combinations(kickers, 3)|);
  }

  lemma FourSize(ranks: seq<nat>)
    requires FullRanks(ranks)
    ensures |Flatten(FourRows(ranks))| == MAX_FOUR_OF_A_KIND - MAX_STRAIGHT_FLUSH
  {
    var rows := FourRows(ranks);
    forall a | 0 <= a < |rows| ensures |rows[a]| == 12 {
      KickersOfFull(ranks, ranks[a]);
    }
    FlattenLength(rows, 12);
  }

  lemma FullHouseSize(ranks: seq<nat>)
    requires FullRanks(ranks)
    ensures |Flatten(FullHouseRows(ranks))| == MAX_FULL_HOUSE - MAX_FOUR_OF_A_KIND
  {
    var rows := FullHouseRows(ranks);
    forall a | 0 <= a < |rows| ensures |rows[a]| == 12 {
      KickersOfFull(ranks, ranks[a]);
    }
    FlattenLength(rows, 12);
  }

  lemma TripsSize(ranks: seq<nat>)
    requires FullRanks(ranks)
    ensures |Flatten(TripsRows(ranks))| == MAX_THREE_OF_A_KIND - MAX_STRAIGHT
  {
    var rows := TripsRows(ranks);
    forall a | 0 <= a < |rows| ensures |rows[a]| == 66 {
      KickerPairsOfFull(ranks, ranks[a]);
    }
    FlattenLength(rows, 66);
  }

  lemma TwoPairSize(ranks: seq<nat>)
    requires FullRanks(ranks)
    ensures |Flatten(TwoPairRows(ranks))| == MAX_TWO_PAIR - MAX_THREE_OF_A_KIND
  {
    var rows := TwoPairRows(ranks);
    DescendingDistinct(ranks);
    forall a | 0 <= a < |rows| ensures |rows[a]| == 11 {
      var pair1, pair2 := TwoPairOf(ranks, a);
      KickersOfFull(ranks, pair1);
      WithoutDistinct(ranks, pair1);
      WithoutLength(Kickers(ranks, pair1), pair2);
    }
    CombinationsPairs(ranks);
    HalfOf(|ranks|, |Combinations(ranks, 2)|);
    FlattenLength(rows, 11);
  }

  lemma PairSize(ranks: seq<nat>)
    requires FullRanks(ranks)
    ensures |Flatten(PairRows(ranks))| == MAX_PAIR - MAX_TWO_PAIR
  {
    var rows := PairRows(ranks);
    forall a | 0 <= a < |rows| ensures |rows[a]| == 220 {
      KickerTriplesOfFull(ranks, ranks[a]);
    }
    FlattenLength(rows, 220);
  }

  /** The five blocks give ranks MAX_STRAIGHT_FLUSH + 1 .. MAX_PAIR, so a
      table whose ranks lie in a range that covers those keeps them there. */
  lemma MultiplesWithin(m: Table, ranks: seq<nat>, lo: int, hi: int)
    requires FullRanks(ranks) && lo <= MAX_STRAIGHT_FLUSH + 1 && MAX_PAIR <= hi
    requires RanksWithin(m, lo, hi)
    ensures RanksWithin(MultiplesTable(m, ranks), lo, hi)
  {
    FourSize(ranks);
    FullHouseSize(ranks);
    TripsSize(ranks);
    TwoPairSize(ranks);
    PairSize(ranks);
    var four := InsertRanks(m, Flatten(FourRows(ranks)), MAX_STRAIGHT_FLUSH + 1);
    InsertRanksWithin(m, Flatten(FourRows(ranks)), MAX_STRAIGHT_FLUSH + 1, lo, hi);
    var full := InsertRanks(four, Flatten(FullHouseRows(ranks)), MAX_FOUR_OF_A_KIND + 1);
    InsertRanksWithin(four, Flatten(FullHouseRows(ranks)), MAX_FOUR_OF_A_KIND + 1, lo, hi);
    var trips := InsertRanks(full, Flatten(TripsRows(ranks)), MAX_STRAIGHT + 1);
    InsertRanksWithin(full, Flatten(TripsRows(ranks)), MAX_STRAIGHT + 1, lo, hi);
    var twoPair := InsertRanks(trips, Flatten(TwoPairRows(ranks)), MAX_THREE_OF_A_KIND + 1);
    InsertRanksWithin(trips, Flatten(TwoPairRows(ranks)), MAX_THREE_OF_A_KIND + 1, lo, hi);
    InsertRanksWithin(twoPair, Flatten(PairRows(ranks)), MAX_TWO_PAIR + 1, lo, hi);
  }

  /** Which block a key lies in fixes the shape of every hand with that
      product. */
  lemma BlockShape(ranks: seq<nat>, h: seq<nat>)
    requires AllRanks(ranks) && Descending(ranks) && AllRanks(h)
    ensures RankProduct(h) in Flatten(FourRows(ranks)) ==> Shape(multiset(h)) == (1, 0, 0)
    ensures RankProduct(h) in Flatten(FullHouseRows(ranks)) ==> Shape(multiset(h)) == (0, 1, 1)
    ensures RankProduct(h) in Flatten(TripsRows(ranks)) ==> Shape(multiset(h)) == (0, 1, 0)
    ensures RankProduct(h) in Flatten(TwoPairRows(ranks)) ==> Shape(multiset(h)) == (0, 0, 2)
    ensures RankProduct(h) in Flatten(PairRows(ranks)) ==> Shape(multiset(h)) == (0, 0, 1)
  {
    var x := RankProduct(h);
    if x in Flatten(FourRows(ranks)) {
      var h' := FourKeyShape(ranks, x);
      RankProductInjective(h, h');
    }
    if x in Flatten(FullHouseRows(ranks)) {
      var h' := FullHouseKeyShape(ranks, x);
      RankProductInjective(h, h');
    }
    if x in Flatten(TripsRows(ranks)) {
      var h' := TripsKeyShape(ranks, x);
      RankProductInjective(h, h');
    }
    if x in Flatten(TwoPairRows(ranks)) {
      var h' := TwoPairKeyShape(ranks, x);
      RankProductInjective(h, h');
    }
    if x in Flatten(PairRows(ranks)) {
      var h' := PairKeyShape(ranks, x);
      RankProductInjective(h, h');
    }
  }

  /** The key of a 13-bit rank pattern (a flush, straight or high card) is
      in no block. */
  lemma RankbitsInNoBlock(ranks: seq<nat>, bits: bv64)
    requires AllRanks(ranks) && Descending(ranks)
    ensures RankbitsProduct(bits, 13) !in Flatten(FourRows(ranks))
    ensures RankbitsProduct(bits, 13) !in Flatten(FullHouseRows(ranks))
    ensures RankbitsProduct(bits, 13) !in Flatten(TripsRows(ranks))
    ensures RankbitsProduct(bits, 13) !in Flatten(TwoPairRows(ranks))
    ensures RankbitsProduct(bits, 13) !in Flatten(PairRows(ranks))
  {
    var h := BitRanks(bits, 13);
    BitRanksIncreasing(bits, 13);
    DistinctShape(h);
    RankbitsAsRankProduct(bits, 13);
    BlockShape(ranks, h);
  }

  lemma FourElsewhere(ranks: seq<nat>, x: int)
    requires AllRanks(ranks) && Descending(ranks) && x in Flatten(FourRows(ranks))
    ensures x !in Flatten(FullHouseRows(ranks)) && x !in Flatten(TripsRows(ranks))
    ensures x !in Flatten(TwoPairRows(ranks)) && x !in Flatten(PairRows(ranks))
  {
    var h := FourKeyShape(ranks, x);
    BlockShape(ranks, h);
  }

  lemma FullHouseElsewhere(ranks: seq<nat>, x: int)
    requires AllRanks(ranks) && Descending(ranks) && x in Flatten(FullHouseRows(ranks))
    ensures x !in Flatten(TripsRows(ranks)) && x !in Flatten(TwoPairRows(ranks)) && x !in Flatten(PairRows(ranks))
  {
    var h := FullHouseKeyShape(ranks, x);
    BlockShape(ranks, h);
  }

  lemma TripsElsewhere(ranks: seq<nat>, x: int)
    requires AllRanks(ranks) && Descending(ranks) && x in Flatten(TripsRows(ranks))
    ensures x !in Flatten(TwoPairRows(ranks)) && x !in Flatten(PairRows(ranks))
  {
    var h := TripsKeyShape(ranks, x);
    BlockShape(ranks, h);
  }

  lemma TwoPairElsewhere(ranks: seq<nat>, x: int)
    requires AllRanks(ranks) && Descending(ranks) && x in Flatten(TwoPairRows(ranks))
    ensures x !in Flatten(PairRows(ranks))
  {
    var h := TwoPairKeyShape(ranks, x);
    BlockShape(ranks, h);
  }

  // The ranks `multiples` gives. With `k` the j-th key of a block, the
  // finished table maps k to the block's first rank plus j.

  lemma FourRanked(m: Table, ranks: seq<nat>, j: nat)
    requires FullRanks(ranks) && j < MAX_FOUR_OF_A_KIND - MAX_STRAIGHT_FLUSH
    ensures |Flatten(FourRows(ranks))| == MAX_FOUR_OF_A_KIND - MAX_STRAIGHT_FLUSH
    ensures Flatten(FourRows(ranks))[j] in MultiplesTable(m, ranks)
    ensures MultiplesTable(m, ranks)[Flatten(FourRows(ranks))[j]] == MAX_STRAIGHT_FLUSH + 1 + j
  {
    FourSize(ranks);
    var keys := Flatten(FourRows(ranks));
    var x := keys[j];
    FourKeysDistinct(ranks);
    FourElsewhere(ranks, x);
    var t1 := InsertRanks(m, keys, MAX_STRAIGHT_FLUSH + 1);
    InsertRanksAt(m, keys, MAX_STRAIGHT_FLUSH + 1, j);
    var t2 := InsertRanks(t1, Flatten(FullHouseRows(ranks)), MAX_FOUR_OF_A_KIND + 1);
    InsertRanksKeep(t1, Flatten(FullHouseRows(ranks)), MAX_FOUR_OF_A_KIND + 1, x);
    var t3 := InsertRanks(t2, Flatten(TripsRows(ranks)), MAX_STRAIGHT + 1);
    InsertRanksKeep(t2, Flatten(TripsRows(ranks)), MAX_STRAIGHT + 1, x);
    var t4 := InsertRanks(t3, Flatten(TwoPairRows(ranks)), MAX_THREE_OF_A_KIND + 1);
    InsertRanksKeep(t3, Flatten(TwoPairRows(ranks)), MAX_THREE_OF_A_KIND + 1, x);
    InsertRanksKeep(t4, Flatten(PairRows(ranks)), MAX_TWO_PAIR + 1, x);
  }

  lemma FullHouseRanked(m: Table, ranks: seq<nat>, j: nat)
    requires FullRanks(ranks) && j < MAX_FULL_HOUSE - MAX_FOUR_OF_A_KIND
    ensures |Flatten(FullHouseRows(ranks))| == MAX_FULL_HOUSE - MAX_FOUR_OF_A_KIND
    ensures Flatten(FullHouseRows(ranks))[j] in MultiplesTable(m, ranks)
    ensures MultiplesTable(m, ranks)[Flatten(FullHouseRows(ranks))[j]] == MAX_FOUR_OF_A_KIND + 1 + j
  {
    FullHouseSize(ranks);
    var keys := Flatten(FullHouseRows(ranks));
    var x := keys[j];
    FullHouseKeysDistinct(ranks);
    FullHouseElsewhere(ranks, x);
    var t1 := InsertRanks(m, Flatten(FourRows(ranks)), MAX_STRAIGHT_FLUSH + 1);
    var t2 := InsertRanks(t1, keys, MAX_FOUR_OF_A_KIND + 1);
    InsertRanksAt(t1, keys, MAX_FOUR_OF_A_KIND + 1, j);
    var t3 := InsertRanks(t2, Flatten(TripsRows(ranks)), MAX_STRAIGHT + 1);
    InsertRanksKeep(t2, Flatten(TripsRows(ranks)), MAX_STRAIGHT + 1, x);
    var t4 := InsertRanks(t3, Flatten(TwoPairRows(ranks)), MAX_THREE_OF_A_KIND + 1);
    InsertRanksKeep(t3, Flatten(TwoPairRows(ranks)), MAX_THREE_OF_A_KIND + 1, x);
    InsertRanksKeep(t4, Flatten(PairRows(ranks)), MAX_TWO_PAIR + 1, x);
  }

  lemma TripsRanked(m: Table, ranks: seq<nat>, j: nat)
    requires FullRanks(ranks) && j < MAX_THREE_OF_A_KIND - MAX_STRAIGHT
    ensures |Flatten(TripsRows(ranks))| == MAX_THREE_OF_A_KIND - MAX_STRAIGHT
    ensures Flatten(TripsRows(ranks))[j] in MultiplesTable(m, ranks)
    ensures MultiplesTable(m, ranks)[Flatten(TripsRows(ranks))[j]] == MAX_STRAIGHT + 1 + j
  {
    TripsSize(ranks);
    var keys := Flatten(TripsRows(ranks));
    var x := keys[j];
    TripsKeysDistinct(ranks);
    TripsElsewhere(ranks, x);
    var t1 := InsertRanks(m, Flatten(FourRows(ranks)), MAX_STRAIGHT_FLUSH + 1);
    var t2 := InsertRanks(t1, Flatten(FullHouseRows(ranks)), MAX_FOUR_OF_A_KIND + 1);
    var t3 := InsertRanks(t2, keys, MAX_STRAIGHT + 1);
    InsertRanksAt(t2, keys, MAX_STRAIGHT + 1, j);
    var t4 := InsertRanks(t3, Flatten(TwoPairRows(ranks)), MAX_THREE_OF_A_KIND + 1);
    InsertRanksKeep(t3, Flatten(TwoPairRows(ranks)), MAX_THREE_OF_A_KIND + 1, x);
    InsertRanksKeep(t4, Flatten(PairRows(ranks)), MAX_TWO_PAIR + 1, x);
  }

  lemma TwoPairRanked(m: Table, ranks: seq<nat>, j: nat)
    requires FullRanks(ranks) && j < MAX_TWO_PAIR - MAX_THREE_OF_A_KIND
    ensures |Flatten(TwoPairRows(ranks))| == MAX_TWO_PAIR - MAX_THREE_OF_A_KIND
    ensures Flatten(TwoPairRows(ranks))[j] in MultiplesTable(m, ranks)
    ensures MultiplesTable(m, ranks)[Flatten(TwoPairRows(ranks))[j]] == MAX_THREE_OF_A_KIND + 1 + j
  {
    TwoPairSize(ranks);
    var keys := Flatten(TwoPairRows(ranks));
    var x := keys[j];
    TwoPairKeysDistinct(ranks);
    TwoPairElsewhere(ranks, x);
    var t1 := InsertRanks(m, Flatten(FourRows(ranks)), MAX_STRAIGHT_FLUSH + 1);
    var t2 := InsertRanks(t1, Flatten(FullHouseRows(ranks)), MAX_FOUR_OF_A_KIND + 1);
    var t3 := InsertRanks(t2, Flatten(TripsRows(ranks)), MAX_STRAIGHT + 1);
    var t4 := InsertRanks(t3, keys, MAX_THREE_OF_A_KIND + 1);
    InsertRanksAt(t3, keys, MAX_THREE_OF_A_KIND + 1, j);
    InsertRanksKeep(t4, Flatten(PairRows(ranks)), MAX_TWO_PAIR + 1, x);
  }

  lemma PairRanked(m: Table, ranks: seq<nat>, j: nat)
    requires FullRanks(ranks) && j < MAX_PAIR - MAX_TWO_PAIR
    ensures |Flatten(PairRows(ranks))| == MAX_PAIR - MAX_TWO_PAIR
    ensures Flatten(PairRows(ranks))[j] in MultiplesTable(m, ranks)
    ensures MultiplesTable(m, ranks)[Flatten(PairRows(ranks))[j]] == MAX_TWO_PAIR + 1 + j
  {
    PairSize(ranks);
    PairKeysDistinct(ranks);
    var t1 := InsertRanks(m, Flatten(FourRows(ranks)), MAX_STRAIGHT_FLUSH + 1);
    var t2 := InsertRanks(t1, Flatten(FullHouseRows(ranks)), MAX_FOUR_OF_A_KIND + 1);
    var t3 := InsertRanks(t2, Flatten(TripsRows(ranks)), MAX_STRAIGHT + 1);
    var t4 := InsertRanks(t3, Flatten(TwoPairRows(ranks)), MAX_THREE_OF_A_KIND + 1);
    InsertRanksAt(t4, Flatten(PairRows(ranks)), MAX_TWO_PAIR + 1, j);
  }

  /** `multiples` leaves the rank of every 13-bit pattern key (the straights
      and high cards `straight_and_highcards` put there first) as it was. */
  lemma RankbitsKept(m: Table, ranks: seq<nat>, bits: bv64)
    requires AllRanks(ranks) && Descending(ranks) && RankbitsProduct(bits, 13) in m
    ensures RankbitsProduct(bits, 13) in MultiplesTable(m, ranks)
    ensures MultiplesTable(m, ranks)[RankbitsProduct(bits, 13)] == m[RankbitsProduct(bits, 13)]
  {
    var x := RankbitsProduct(bits, 13);
    RankbitsInNoBlock(ranks, bits);
    var t1 := InsertRanks(m, Flatten(FourRows(ranks)), MAX_STRAIGHT_FLUSH + 1);
    InsertRanksKeep(m, Flatten(FourRows(ranks)), MAX_STRAIGHT_FLUSH + 1, x);
    var t2 := InsertRanks(t1, Flatten(FullHouseRows(ranks)), MAX_FOUR_OF_A_KIND + 1);
    InsertRanksKeep(t1, Flatten(FullHouseRows(ranks)), MAX_FOUR_OF_A_KIND + 1, x);
    var t3 := InsertRanks(t2, Flatten(TripsRows(ranks)), MAX_STRAIGHT + 1);
    InsertRanksKeep(t2, Flatten(TripsRows(ranks)), MAX_STRAIGHT + 1, x);
    var t4 := InsertRanks(t3, Flatten(TwoPairRows(ranks)), MAX_THREE_OF_A_KIND + 1);
    InsertRanksKeep(t3, Flatten(TwoPairRows(ranks)), MAX_THREE_OF_A_KIND + 1, x);
    InsertRanksKeep(t4, Flatten(PairRows(ranks)), MAX_TWO_PAIR + 1, x);
  }
}
