/** `init` (woker/src/main.rs:85-148): the two lookup tables, built by
    `flushes` and then `multiples` from empty maps, and the two maps that
    name the hand classes. */
module Tables {
  import opened Wrappers
  import opened PokerCard
  import opened PrimeProducts
  import opened Combinatorics
  import opened LookupTables
  import opened Multiples
  import opened MultiplesOrder
  import opened FlushOrder
  import opened FlushEnumeration
  import opened Evaluator

  /** `unsuited_lookup` as `init` leaves it, for a given list of flush
      patterns: the straights and high cards, then the five `multiples` blocks. */
  function UnsuitedTable(patterns: seq<bv64>): Table {
    MultiplesTable(StraightsAndHighcardsTable(map[], STRAIGHT_FLUSHES, patterns), BACKWARDS_RANKS)
  }

  /** The table-building part of `init`. */
  method BuildTables() returns (flushLookup: Table, unsuitedLookup: Table)
    ensures flushLookup == FlushTable(map[], FLUSH_PATTERNS)
    ensures unsuitedLookup == UnsuitedTable(FLUSH_PATTERNS)
  {
    flushLookup, unsuitedLookup := Flushes(map[], map[]);
    unsuitedLookup := BuildMultiples(unsuitedLookup);
  }

  /** In the finished `unsuited_lookup` the j-th straight keeps rank MAX_FLUSH + 1 + j. */
  lemma UnsuitedStraight(patterns: seq<bv64>, j: nat)
    requires Patterns13(patterns) && NoStraightFlush(patterns) && j < |STRAIGHT_FLUSHES|
    ensures RankbitsProduct(STRAIGHT_FLUSHES[j], 13) in UnsuitedTable(patterns)
    ensures UnsuitedTable(patterns)[RankbitsProduct(STRAIGHT_FLUSHES[j], 13)] == MAX_FLUSH + 1 + j
  {
    StraightRanked(map[], patterns, j);
    BackwardsFull();
    RankbitsKept(StraightsAndHighcardsTable(map[], STRAIGHT_FLUSHES, patterns), BACKWARDS_RANKS, STRAIGHT_FLUSHES[j]);
  }

  /** In the finished `unsuited_lookup` the j-th high card keeps rank MAX_PAIR + 1 + j. */
  lemma UnsuitedHighCard(patterns: seq<bv64>, j: nat)
    requires Patterns13(patterns) && Distinct(patterns) && j < |patterns|
    ensures RankbitsProduct(patterns[j], 13) in UnsuitedTable(patterns)
    ensures UnsuitedTable(patterns)[RankbitsProduct(patterns[j], 13)] == MAX_PAIR + 1 + j
  {
    HighCardRanked(map[], patterns, j);
    BackwardsFull();
    RankbitsKept(StraightsAndHighcardsTable(map[], STRAIGHT_FLUSHES, patterns), BACKWARDS_RANKS, patterns[j]);
  }

  // The tables `init` builds: the flush patterns are the generator's, so the
  // rank lemmas above hold of them.

  /** In the built `flush_lookup` the j-th straight flush has rank 1 + j. */
  lemma BuiltStraightFlush(j: nat)
    requires j < |STRAIGHT_FLUSHES|
    ensures RankbitsProduct(STRAIGHT_FLUSHES[j], 13) in FlushTable(map[], FLUSH_PATTERNS)
    ensures FlushTable(map[], FLUSH_PATTERNS)[RankbitsProduct(STRAIGHT_FLUSHES[j], 13)] == 1 + j
  {
    FlushPatternsShape();
    StraightFlushRanked(map[], FLUSH_PATTERNS, j);
  }

  /** In the built `flush_lookup` the j-th of the 1277 flushes has rank
      MAX_FULL_HOUSE + 1 + j, the last one MAX_FLUSH. */
  lemma BuiltFlush(j: nat)
    requires j < MAX_FLUSH - MAX_FULL_HOUSE
    ensures |FLUSH_PATTERNS| == MAX_FLUSH - MAX_FULL_HOUSE
    ensures RankbitsProduct(FLUSH_PATTERNS[j], 13) in FlushTable(map[], FLUSH_PATTERNS)
    ensures FlushTable(map[], FLUSH_PATTERNS)[RankbitsProduct(FLUSH_PATTERNS[j], 13)] == MAX_FULL_HOUSE + 1 + j
  {
    FlushPatternsShape();
    FlushRanked(map[], FLUSH_PATTERNS, j);
  }

  /** In the built `unsuited_lookup` the j-th straight has rank MAX_FLUSH + 1 + j. */
  lemma BuiltStraight(j: nat)
    requires j < |STRAIGHT_FLUSHES|
    ensures RankbitsProduct(STRAIGHT_FLUSHES[j], 13) in UnsuitedTable(FLUSH_PATTERNS)
    ensures UnsuitedTable(FLUSH_PATTERNS)[RankbitsProduct(STRAIGHT_FLUSHES[j], 13)] == MAX_FLUSH + 1 + j
  {
    FlushPatternsShape();
    UnsuitedStraight(FLUSH_PATTERNS, j);
  }

  /** In the built `unsuited_lookup` the j-th of the 1277 high cards has rank
      MAX_PAIR + 1 + j, the last one MAX_HIGH_CARD. */
  lemma BuiltHighCard(j: nat)
    requires j < MAX_HIGH_CARD - MAX_PAIR
    ensures |FLUSH_PATTERNS| == MAX_HIGH_CARD - MAX_PAIR
    ensures RankbitsProduct(FLUSH_PATTERNS[j], 13) in UnsuitedTable(FLUSH_PATTERNS)
    ensures UnsuitedTable(FLUSH_PATTERNS)[RankbitsProduct(FLUSH_PATTERNS[j], 13)] == MAX_PAIR + 1 + j
  {
    FlushPatternsShape();
    UnsuitedHighCard(FLUSH_PATTERNS, j);
  }

  /** The ranks `flushes` gives in `flush_lookup` run from 1 to
      MAX_FULL_HOUSE + |patterns|. */
  lemma FlushTableWithin(patterns: seq<bv64>, lo: int, hi: int)
    requires lo <= 1 && MAX_FULL_HOUSE + |patterns| <= hi
    ensures RanksWithin(FlushTable(map[], patterns), lo, hi)
  {
    var sf := InsertRanks(map[], RankbitsKeys(STRAIGHT_FLUSHES), 1);
    InsertRanksWithin(map[], RankbitsKeys(STRAIGHT_FLUSHES), 1, lo, hi);
    InsertRanksWithin(sf, RankbitsKeys(patterns), MAX_FULL_HOUSE + 1, lo, hi);
  }

  /** The ranks `init` gives in `unsuited_lookup` run from
      MAX_STRAIGHT_FLUSH + 1 to MAX_PAIR + |patterns|. */
  lemma UnsuitedTableWithin(patterns: seq<bv64>, lo: int, hi: int)
    requires lo <= MAX_STRAIGHT_FLUSH + 1 && MAX_PAIR + |patterns| <= hi
    ensures RanksWithin(UnsuitedTable(patterns), lo, hi)
  {
    var straights := InsertRanks(map[], RankbitsKeys(STRAIGHT_FLUSHES), MAX_FLUSH + 1);
    InsertRanksWithin(map[], RankbitsKeys(STRAIGHT_FLUSHES), MAX_FLUSH + 1, lo, hi);
    InsertRanksWithin(straights, RankbitsKeys(patterns), MAX_PAIR + 1, lo, hi);
    BackwardsFull();
    MultiplesWithin(StraightsAndHighcardsTable(map[], STRAIGHT_FLUSHES, patterns), BACKWARDS_RANKS, lo, hi);
  }

  /** Every rank in the built `flush_lookup` lies in 1 .. MAX_FLUSH. */
  lemma FlushLookupWithin()
    ensures RanksWithin(FlushTable(map[], FLUSH_PATTERNS), 1, MAX_FLUSH)
  {
    FlushPatternsShape();
    FlushTableWithin(FLUSH_PATTERNS, 1, MAX_FLUSH);
  }

  /** Every rank in the built `unsuited_lookup` lies in
      MAX_STRAIGHT_FLUSH + 1 .. MAX_HIGH_CARD. */
  lemma UnsuitedLookupWithin()
    ensures RanksWithin(UnsuitedTable(FLUSH_PATTERNS), MAX_STRAIGHT_FLUSH + 1, MAX_HIGH_CARD)
  {
    FlushPatternsShape();
    UnsuitedTableWithin(FLUSH_PATTERNS, MAX_STRAIGHT_FLUSH + 1, MAX_HIGH_CARD);
  }

  /** Five cards ranked ace, king, queen, jack and ten, in that order. */
  predicate RoyalRanks(cards: seq<Card>)
    requires |cards| == 5
  {
    Rank(cards[0]) == 12 && Rank(cards[1]) == 11 && Rank(cards[2]) == 10 && Rank(cards[3]) == 9 && Rank(cards[4]) == 8
  }

  /** Five cards ranked five, four, three, two and ace, in that order: the wheel. */
  predicate WheelRanks(cards: seq<Card>)
    requires |cards| == 5
  {
    Rank(cards[0]) == 3 && Rank(cards[1]) == 2 && Rank(cards[2]) == 1 && Rank(cards[3]) == 0 && Rank(cards[4]) == 12
  }

  /** A royal flush is the best hand there is: rank 1. */
  lemma RoyalFlushRanksFirst(cards: seq<Card>)
    requires ValidFive(cards) && Suited(cards) && RoyalRanks(cards)
    ensures Five(cards, FlushTable(map[], FLUSH_PATTERNS), UnsuitedTable(FLUSH_PATTERNS)) == Some(1)
  {
    RoyalBits(cards);
    FlushPatternsShape();
    RoyalFlushLooksUp(cards, map[], FLUSH_PATTERNS, UnsuitedTable(FLUSH_PATTERNS));
  }

  /** A hand forming the first straight flush (the royal flush) gets rank 1
      from `flushes`' table, whatever the flush list and the starting table. */
  lemma RoyalFlushLooksUp(cards: seq<Card>, m: Table, patterns: seq<bv64>, unsuitedLookup: Table)
    requires StraightFlushHand(cards, 0) && Patterns13(patterns) && NoStraightFlush(patterns)
    ensures Five(cards, FlushTable(m, patterns), unsuitedLookup) == Some(1)
  {
    FirstStraightFlushLooksUp(cards, 0, m, patterns, unsuitedLookup);
  }

  /** StraightFlushLooksUp at j = 0, with j kept a variable so that the
      verifier does not evaluate the royal flush's key. */
  lemma FirstStraightFlushLooksUp(cards: seq<Card>, j: nat, m: Table, patterns: seq<bv64>, unsuitedLookup: Table)
    requires StraightFlushHand(cards, j) && j == 0 && Patterns13(patterns) && NoStraightFlush(patterns)
    ensures Five(cards, FlushTable(m, patterns), unsuitedLookup) == Some(1)
  {
    StraightFlushLooksUp(cards, j, m, patterns, unsuitedLookup);
  }

  /** The five-high straight flush is the worst straight flush: rank
      MAX_STRAIGHT_FLUSH. */
  lemma SteelWheelRanksLast(cards: seq<Card>)
    requires ValidFive(cards) && Suited(cards) && WheelRanks(cards)
    ensures Five(cards, FlushTable(map[], FLUSH_PATTERNS), UnsuitedTable(FLUSH_PATTERNS)) == Some(MAX_STRAIGHT_FLUSH)
  {
    WheelBits(cards);
    BuiltStraightFlushHand(cards, 9);
  }

  /** Five valid cards of one suit whose rank bits form the j-th straight flush. */
  predicate StraightFlushHand(cards: seq<Card>, j: nat) {
    && ValidFive(cards) && Suited(cards) && j < |STRAIGHT_FLUSHES|
    && RankBitsOf(cards) == STRAIGHT_FLUSHES[j]
  }

  /** Such a hand gets rank 1 + j from `flushes`' table, whatever the flush list. */
  lemma StraightFlushLooksUp(cards: seq<Card>, j: nat, m: Table, patterns: seq<bv64>, unsuitedLookup: Table)
    requires StraightFlushHand(cards, j) && Patterns13(patterns) && NoStraightFlush(patterns)
    ensures Five(cards, FlushTable(m, patterns), unsuitedLookup) == Some(1 + j)
  {
    FiveLooksUp(cards, FlushTable(m, patterns), unsuitedLookup);
    StraightFlushRanked(m, patterns, j);
  }

  /** With the built tables, a hand forming the j-th straight flush evaluates to 1 + j. */
  lemma BuiltStraightFlushHand(cards: seq<Card>, j: nat)
    requires StraightFlushHand(cards, j)
    ensures Five(cards, FlushTable(map[], FLUSH_PATTERNS), UnsuitedTable(FLUSH_PATTERNS)) == Some(1 + j)
  {
    FlushPatternsShape();
    StraightFlushLooksUp(cards, j, map[], FLUSH_PATTERNS, UnsuitedTable(FLUSH_PATTERNS));
  }

  /** Ace, king, queen, jack and ten of one suit are the first straight flush. */
  lemma RoyalBits(cards: seq<Card>)
    requires ValidFive(cards) && Suited(cards) && RoyalRanks(cards)
    ensures StraightFlushHand(cards, 0)
  {
    assert RankBitsOf(cards) == OneHot(12) | OneHot(11) | OneHot(10) | OneHot(9) | OneHot(8);
  }

  /** Five, four, three, two and ace of one suit are the last straight flush. */
  lemma WheelBits(cards: seq<Card>)
    requires ValidFive(cards) && Suited(cards) && WheelRanks(cards)
    ensures StraightFlushHand(cards, 9)
  {
    assert RankBitsOf(cards) == OneHot(3) | OneHot(2) | OneHot(1) | OneHot(0) | OneHot(12);
  }

}
