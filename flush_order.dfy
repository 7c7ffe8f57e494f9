/** The ranks `flushes` and `straight_and_highcards` (woker/src/main.rs:449-526,
    550-575) give: the straight flushes 1..10 in array order, every other
    flush pattern MAX_FULL_HOUSE + 1 onwards, the straights MAX_FLUSH + 1
    onwards and the high cards MAX_PAIR + 1 onwards. These hold for any list
    of distinct 13-bit patterns that avoids the straight flushes; the list the
    generator produces is one (FlushEnumeration.FlushPatternsShape). */
module FlushOrder {
  import opened PokerCard
  import opened PrimeProducts
  import opened Combinatorics
  import opened LookupTables

  /** Rank patterns within the thirteen rank bits. */
  predicate Patterns13(patterns: seq<bv64>) {
    forall j :: 0 <= j < |patterns| ==> patterns[j] < 0x2000
  }

  /** Patterns none of which is a straight flush. */
  predicate NoStraightFlush(patterns: seq<bv64>) {
    forall j :: 0 <= j < |patterns| ==> patterns[j] !in STRAIGHT_FLUSHES
  }

  /** The ten straight-flush patterns are distinct 13-bit patterns. */
  lemma StraightFlushPatterns()
    ensures |STRAIGHT_FLUSHES| == MAX_STRAIGHT_FLUSH == MAX_STRAIGHT - MAX_FLUSH
    ensures Patterns13(STRAIGHT_FLUSHES) && Distinct(STRAIGHT_FLUSHES)
  {
  }

  /** Distinct patterns give distinct keys. */
  lemma RankbitsKeysDistinct(patterns: seq<bv64>)
    requires Patterns13(patterns) && Distinct(patterns)
    ensures Distinct(RankbitsKeys(patterns))
  {
    var keys := RankbitsKeys(patterns);
    forall i, j | 0 <= i < j < |keys| ensures keys[i] != keys[j] {
      RankbitsKeyInjective(patterns[i], patterns[j]);
    }
  }

  /** A straight-flush key is not the key of a pattern that avoids them. */
  lemma StraightFlushKeyApart(patterns: seq<bv64>, j: nat)
    requires Patterns13(patterns) && NoStraightFlush(patterns) && j < |STRAIGHT_FLUSHES|
    ensures RankbitsProduct(STRAIGHT_FLUSHES[j], 13) !in RankbitsKeys(patterns)
  {
    StraightFlushPatterns();
    var sf := STRAIGHT_FLUSHES[j];
    var keys := RankbitsKeys(patterns);
    forall i | 0 <= i < |keys| ensures keys[i] != RankbitsProduct(sf, 13) {
      RankbitsKeyInjective(patterns[i], sf);
    }
  }

  /** `flush_lookup`: the j-th straight flush gets rank j + 1. */
  lemma StraightFlushRanked(m: Table, patterns: seq<bv64>, j: nat)
    requires Patterns13(patterns) && NoStraightFlush(patterns) && j < |STRAIGHT_FLUSHES|
    ensures RankbitsProduct(STRAIGHT_FLUSHES[j], 13) in FlushTable(m, patterns)
    ensures FlushTable(m, patterns)[RankbitsProduct(STRAIGHT_FLUSHES[j], 13)] == 1 + j
  {
    StraightFlushPatterns();
    RankbitsKeysDistinct(STRAIGHT_FLUSHES);
    StraightFlushKeyApart(patterns, j);
    var sfKeys := RankbitsKeys(STRAIGHT_FLUSHES);
    InsertRanksAt(m, sfKeys, 1, j);
    InsertRanksKeep(InsertRanks(m, sfKeys, 1), RankbitsKeys(patterns), MAX_FULL_HOUSE + 1, sfKeys[j]);
  }

  /** `flush_lookup`: the j-th flush pattern gets rank MAX_FULL_HOUSE + 1 + j. */
  lemma FlushRanked(m: Table, patterns: seq<bv64>, j: nat)
    requires Patterns13(patterns) && Distinct(patterns) && j < |patterns|
    ensures RankbitsProduct(patterns[j], 13) in FlushTable(m, patterns)
    ensures FlushTable(m, patterns)[RankbitsProduct(patterns[j], 13)] == MAX_FULL_HOUSE + 1 + j
  {
    RankbitsKeysDistinct(patterns);
    InsertRanksAt(InsertRanks(m, RankbitsKeys(STRAIGHT_FLUSHES), 1), RankbitsKeys(patterns), MAX_FULL_HOUSE + 1, j);
  }

  /** `unsuited_lookup`: the j-th straight gets rank MAX_FLUSH + 1 + j. */
  lemma StraightRanked(m: Table, highcards: seq<bv64>, j: nat)
    requires Patterns13(highcards) && NoStraightFlush(highcards) && j < |STRAIGHT_FLUSHES|
    ensures RankbitsProduct(STRAIGHT_FLUSHES[j], 13) in StraightsAndHighcardsTable(m, STRAIGHT_FLUSHES, highcards)
    ensures StraightsAndHighcardsTable(m, STRAIGHT_FLUSHES, highcards)[RankbitsProduct(STRAIGHT_FLUSHES[j], 13)] == MAX_FLUSH + 1 + j
  {
    StraightFlushPatterns();
    RankbitsKeysDistinct(STRAIGHT_FLUSHES);
    StraightFlushKeyApart(highcards, j);
    var sKeys := RankbitsKeys(STRAIGHT_FLUSHES);
    InsertRanksAt(m, sKeys, MAX_FLUSH + 1, j);
    InsertRanksKeep(InsertRanks(m, sKeys, MAX_FLUSH + 1), RankbitsKeys(highcards), MAX_PAIR + 1, sKeys[j]);
  }

  /** `unsuited_lookup`: the j-th high card gets rank MAX_PAIR + 1 + j. */
  lemma HighCardRanked(m: Table, highcards: seq<bv64>, j: nat)
    requires Patterns13(highcards) && Distinct(highcards) && j < |highcards|
    ensures RankbitsProduct(highcards[j], 13) in StraightsAndHighcardsTable(m, STRAIGHT_FLUSHES, highcards)
    ensures StraightsAndHighcardsTable(m, STRAIGHT_FLUSHES, highcards)[RankbitsProduct(highcards[j], 13)] == MAX_PAIR + 1 + j
  {
    RankbitsKeysDistinct(highcards);
    InsertRanksAt(InsertRanks(m, RankbitsKeys(STRAIGHT_FLUSHES), MAX_FLUSH + 1), RankbitsKeys(highcards), MAX_PAIR + 1, j);
  }
}
