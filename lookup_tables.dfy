/** The two lookup tables of the evaluator (woker/src/main.rs:449-526 and
    550-575): `flushes` fills `flush_lookup` with the straight flushes and the
    other flushes, and `straight_and_highcards` fills `unsuited_lookup` with the
    same bit patterns read as straights and high cards. A table maps a prime
    product to a hand rank; the Rust `&mut HashMap` parameters are modelled as
    maps passed in and returned. */
module LookupTables {
  import opened PokerCard
  import opened PrimeProducts
  import opened BitSequence
  import opened Combinatorics

  const MAX_STRAIGHT_FLUSH: int := 10
  const MAX_FOUR_OF_A_KIND: int := 166
  const MAX_FULL_HOUSE: int := 322
  const MAX_FLUSH: int := 1599
  const MAX_STRAIGHT: int := 1609
  const MAX_THREE_OF_A_KIND: int := 2467
  const MAX_TWO_PAIR: int := 3325
  const MAX_PAIR: int := 6185
  const MAX_HIGH_CARD: int := 7462

  type Table = map<int, int>

  /** The ten straight-flush rank patterns, royal flush first, the wheel (A-2-3-4-5) last. */
  const STRAIGHT_FLUSHES: seq<bv64> := [7936, 3968, 1984, 992, 496, 248, 124, 62, 31, 4111]

  /** Iterations of the generator loop: `1277 + STRAIGHT_FLUSHES.len() - 1`. */
  const FLUSH_STEPS: nat := 1277 + |STRAIGHT_FLUSHES| - 1

  /** The table after `insert(keys[j], start + j)` for j = 0, 1, ... in order. */
  function InsertRanks(m: Table, keys: seq<int>, start: int): Table
  {
    if keys == [] then m
    else InsertRanks(m, keys[..|keys| - 1], start)[keys[|keys| - 1] := start + |keys| - 1]
  }

  /** Inserting one more key. */
  lemma InsertRanksSnoc(m: Table, keys: seq<int>, x: int, start: int)
    ensures InsertRanks(m, keys + [x], start) == InsertRanks(m, keys, start)[x := start + |keys|]
  {
    assert (keys + [x])[..|keys|] == keys;
  }

  /** One more key of the current row of a nested loop. */
  lemma InsertRowStep(m: Table, done: seq<int>, row: seq<int>, b: nat, start: int)
    requires b < |row|
    ensures InsertRanks(m, done + row[..b + 1], start) == InsertRanks(m, done + row[..b], start)[row[b] := start + |done| + b]
  {
    assert done + row[..b + 1] == (done + row[..b]) + [row[b]];
    InsertRanksSnoc(m, done + row[..b], row[b], start);
  }

  /** Every inserted key and every old key is in the table. */
  lemma {:induction false} InsertRanksHas(m: Table, keys: seq<int>, start: int, x: int)
    requires x in m || x in keys
    ensures x in InsertRanks(m, keys, start)
  {
    if keys != [] && x != keys[|keys| - 1] {
      assert x in m || x in keys[..|keys| - 1];
      InsertRanksHas(m, keys[..|keys| - 1], start, x);
    }
  }

  /** When no key repeats, the j-th key ends up with rank start + j. */
  lemma {:induction false} InsertRanksAt(m: Table, keys: seq<int>, start: int, j: nat)
    requires Distinct(keys) && j < |keys|
    ensures keys[j] in InsertRanks(m, keys, start) && InsertRanks(m, keys, start)[keys[j]] == start + j
  {
    if j < |keys| - 1 {
      var init := keys[..|keys| - 1];
      assert Distinct(init);
      InsertRanksAt(m, init, start, j);
    }
  }

  /** Keys that are not inserted keep their old rank. */
  lemma {:induction false} InsertRanksKeep(m: Table, keys: seq<int>, start: int, x: int)
    requires x in m && x !in keys
    ensures x in InsertRanks(m, keys, start) && InsertRanks(m, keys, start)[x] == m[x]
  {
    if keys != [] {
      assert x !in keys[..|keys| - 1];
      InsertRanksKeep(m, keys[..|keys| - 1], start, x);
    }
  }

  /** Every rank in the table lies in lo .. hi. */
  ghost predicate RanksWithin(t: Table, lo: int, hi: int) {
    forall k :: k in t ==> lo <= t[k] <= hi
  }

  /** Inserting ranks start .. start + |keys| - 1, all within lo .. hi, into a
      table whose ranks lie in lo .. hi keeps every rank within lo .. hi. */
  lemma {:induction false} InsertRanksWithin(m: Table, keys: seq<int>, start: int, lo: int, hi: int)
    requires RanksWithin(m, lo, hi) && lo <= start && start + |keys| <= hi + 1
    ensures RanksWithin(InsertRanks(m, keys, start), lo, hi)
  {
    if keys != [] {
      InsertRanksWithin(m, keys[..|keys| - 1], start, lo, hi);
    }
  }

  /** The prime products of a list of rank patterns. */
  function RankbitsKeys(patterns: seq<bv64>): (ks: seq<int>)
    ensures |ks| == |patterns|
    ensures forall i :: 0 <= i < |patterns| ==> ks[i] == RankbitsProduct(patterns[i], 13)
  {
    seq(|patterns|, i requires 0 <= i < |patterns| => RankbitsProduct(patterns[i], 13) as int)
  }

  /** The loop shared by `flushes` and `straight_and_highcards`: insert the
      prime product of each pattern with ranks start, start + 1, ... */
  method InsertPatternRanks(m: Table, patterns: seq<bv64>, start: int) returns (r: Table, next: int)
    ensures r == InsertRanks(m, RankbitsKeys(patterns), start)
    ensures next == start + |patterns|
  {
    r := m;
    next := start;
    for i := 0 to |patterns|
      invariant r == InsertRanks(m, RankbitsKeys(patterns[..i]), start)
      invariant next == start + i
    {
      var product := PrimeProductFromRankbits(patterns[i]);
      RankbitsKeysSnoc(patterns, i);
      InsertRanksSnoc(m, RankbitsKeys(patterns[..i]), product, start);
      r := r[product := next];
      next := next + 1;
    }
    assert patterns[..|patterns|] == patterns;
  }

  lemma RankbitsKeysSnoc(patterns: seq<bv64>, i: nat)
    requires i < |patterns|
    ensures RankbitsKeys(patterns[..i + 1]) == RankbitsKeys(patterns[..i]) + [RankbitsProduct(patterns[i], 13) as int]
  {
  }

  /** The value of `f` in iteration n of the generator loop. */
  function Generated(n: nat): bv64 {
    if n == 0 then NextBitSequence(0x1F) else NextBitSequence(Generated(n - 1))
  }

  /** The `flushes` vector after n iterations, before it is reversed: the
      generated patterns that are not straight flushes, in generation order. */
  function Unreversed(n: nat): seq<bv64> {
    Kept(Generated, n)
  }

  /** The patterns of steps 0 .. n - 1 of a run of patterns g that are not
      straight flushes, in step order. */
  function Kept(g: nat -> bv64, n: nat): seq<bv64> {
    if n == 0 then [] else Kept(g, n - 1) + (if g(n - 1) in STRAIGHT_FLUSHES then [] else [g(n - 1)])
  }

  lemma UnreversedStep(n: nat)
    ensures Generated(n) in STRAIGHT_FLUSHES ==> Unreversed(n + 1) == Unreversed(n)
    ensures Generated(n) !in STRAIGHT_FLUSHES ==> Unreversed(n + 1) == Unreversed(n) + [Generated(n)]
  {
  }

  /** The generator drops every straight flush ... */
  lemma {:induction false} KeptNotStraight(g: nat -> bv64, n: nat)
    ensures forall j :: 0 <= j < |Kept(g, n)| ==> Kept(g, n)[j] !in STRAIGHT_FLUSHES
    ensures |Kept(g, n)| <= n
  {
    if n > 0 {
      KeptNotStraight(g, n - 1);
    }
  }

  /** ... and keeps every other generated pattern. */
  lemma {:induction false} KeptKeeps(g: nat -> bv64, n: nat, i: nat)
    requires i < n && g(i) !in STRAIGHT_FLUSHES
    ensures g(i) in Kept(g, n)
  {
    if i < n - 1 {
      KeptKeeps(g, n - 1, i);
    }
  }

  function Reverse<T>(s: seq<T>): (r: seq<T>)
    ensures |r| == |s|
    ensures forall i :: 0 <= i < |s| ==> r[i] == s[|s| - 1 - i]
  {
    if s == [] then [] else Reverse(s[1..]) + [s[0]]
  }

  /** The flush patterns in the order the tables rank them (most powerful first). */
  const FLUSH_PATTERNS: seq<bv64> := Reverse(Unreversed(FLUSH_STEPS))

  /** No flush pattern is a straight flush, and there are at most as many as
      loop iterations: `FLUSH_PATTERNS` is the case n == FLUSH_STEPS. */
  lemma FlushPatternsNotStraight(n: nat)
    ensures forall j :: 0 <= j < |Reverse(Unreversed(n))| ==> Reverse(Unreversed(n))[j] !in STRAIGHT_FLUSHES
    ensures |Reverse(Unreversed(n))| <= n
  {
    KeptNotStraight(Generated, n);
  }

  /** The generator loop of `flushes`, then `flushes.reverse()`. */
  method GenerateFlushPatterns() returns (flushes: seq<bv64>)
    ensures flushes == FLUSH_PATTERNS
  {
    flushes := [];
    var gen := NextBitSequence(0x1F);
    for n := 0 to FLUSH_STEPS
      invariant gen == Generated(n)
      invariant flushes == Unreversed(n)
    {
      var f := gen;
      gen := NextBitSequence(gen);
      var notSf := NotStraightFlush(f);
      UnreversedStep(n);
      if notSf {
        flushes := flushes + [f];
      }
    }
    flushes := Reverse(flushes);
  }

  /** The inner loop of the generator: `f` differs (`f ^ sf != 0`) from every straight flush. */
  method NotStraightFlush(f: bv64) returns (notSf: bool)
    ensures notSf <==> f !in STRAIGHT_FLUSHES
  {
    notSf := true;
    for j := 0 to |STRAIGHT_FLUSHES|
      invariant notSf <==> f !in STRAIGHT_FLUSHES[..j]
    {
      assert STRAIGHT_FLUSHES[..j + 1] == STRAIGHT_FLUSHES[..j] + [STRAIGHT_FLUSHES[j]];
      if f ^ STRAIGHT_FLUSHES[j] == 0 {
        notSf := false;
      }
    }
    assert STRAIGHT_FLUSHES[..|STRAIGHT_FLUSHES|] == STRAIGHT_FLUSHES;
  }

  /** `flush_lookup` after `flushes`: straight flushes ranked from 1, then the
      flush patterns ranked from MAX_FULL_HOUSE + 1. */
  function FlushTable(m: Table, patterns: seq<bv64>): Table {
    InsertRanks(InsertRanks(m, RankbitsKeys(STRAIGHT_FLUSHES), 1), RankbitsKeys(patterns), MAX_FULL_HOUSE + 1)
  }

  /** `unsuited_lookup` after `straight_and_highcards(straights, highcards, _)`. */
  function StraightsAndHighcardsTable(m: Table, straights: seq<bv64>, highcards: seq<bv64>): Table {
    InsertRanks(InsertRanks(m, RankbitsKeys(straights), MAX_FLUSH + 1), RankbitsKeys(highcards), MAX_PAIR + 1)
  }

  method StraightAndHighcards(unsuitedLookup: Table, straights: seq<bv64>, highcards: seq<bv64>) returns (ul: Table)
    ensures ul == StraightsAndHighcardsTable(unsuitedLookup, straights, highcards)
  {
    var next;
    ul, next := InsertPatternRanks(unsuitedLookup, straights, MAX_FLUSH + 1);
    ul, next := InsertPatternRanks(ul, highcards, MAX_PAIR + 1);
  }

  method Flushes(flushLookup: Table, unsuitedLookup: Table) returns (fl: Table, ul: Table)
    ensures fl == FlushTable(flushLookup, FLUSH_PATTERNS)
    ensures ul == StraightsAndHighcardsTable(unsuitedLookup, STRAIGHT_FLUSHES, FLUSH_PATTERNS)
  {
    var flushes := GenerateFlushPatterns();
    var next;
    fl, next := InsertPatternRanks(flushLookup, STRAIGHT_FLUSHES, 1);
    fl, next := InsertPatternRanks(fl, flushes, MAX_FULL_HOUSE + 1);
    ul := StraightAndHighcards(unsuitedLookup, STRAIGHT_FLUSHES, flushes);
  }
}
