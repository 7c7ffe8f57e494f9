/** `multiples` (woker/src/main.rs:577-666): the five blocks that rank the
    hands with a repeated rank (four of a kind, full house, three of a kind,
    two pair, pair) into `unsuited_lookup`. Each block is a nested loop over
    `backwards_ranks` and its kickers; the loops are modelled one method per
    block, each proved to insert the keys of its rows, in order, with
    consecutive ranks. */
module Multiples {
  import opened PokerCard
  import opened PrimeProducts
  import opened Combinatorics
  import opened LookupTables

  /** `INT_RANKS` reversed: the ace (12) first, the deuce (0) last. */
  const BACKWARDS_RANKS: seq<nat> := [12, 11, 10, 9, 8, 7, 6, 5, 4, 3, 2, 1, 0]

  lemma BackwardsAreRanks()
    ensures AllRanks(BACKWARDS_RANKS)
  {
  }

  lemma BackwardsRanks()
    ensures |BACKWARDS_RANKS| == 13 && AllRanks(BACKWARDS_RANKS)
    ensures Descending(BACKWARDS_RANKS) && Distinct(BACKWARDS_RANKS)
    ensures forall r :: 0 <= r < 13 ==> r in BACKWARDS_RANKS
  {
    forall r | 0 <= r < 13 ensures r in BACKWARDS_RANKS {
      assert BACKWARDS_RANKS[12 - r] == r;
    }
  }

  /** `i64::pow`. */
  function Pow(b: int, e: nat): int {
    if e == 0 then 1 else b * Pow(b, e - 1)
  }

  /** `ranks` with x removed by `retain`: the kickers (or pair ranks) that go
      with the rank x. */
  function Kickers(ranks: seq<nat>, x: nat): (ks: seq<nat>)
    requires AllRanks(ranks)
    ensures AllRanks(ks)
  {
    WithoutBelow(ranks, x, 13);
    Without(ranks, x)
  }

  /** `ranks.iter().combinations(k)`, each combination a list of k ranks. */
  function RankCombinations(ranks: seq<nat>, k: nat): (cs: seq<seq<nat>>)
    requires AllRanks(ranks)
    ensures forall j :: 0 <= j < |cs| ==> |cs[j]| == k && AllRanks(cs[j])
  {
    CombinationsBelow(ranks, k, 13);
    var cs := Combinations(ranks, k);
    assert forall j :: 0 <= j < |cs| ==> cs[j] in cs;
    cs
  }

  // The products the five blocks insert, as the source writes them.

  function FourKey(i: nat, k: nat): int
    requires i < 13 && k < 13
  {
    Pow(PrimeOf(i), 4) * PrimeOf(k)
  }

  function FullHouseKey(i: nat, pr: nat): int
    requires i < 13 && pr < 13
  {
    Pow(PrimeOf(i), 3) * Pow(PrimeOf(pr), 2)
  }

  function TripsKey(r: nat, c1: nat, c2: nat): int
    requires r < 13 && c1 < 13 && c2 < 13
  {
    Pow(PrimeOf(r), 3) * PrimeOf(c1) * PrimeOf(c2)
  }

  function TwoPairKey(pair1: nat, pair2: nat, kicker: nat): int
    requires pair1 < 13 && pair2 < 13 && kicker < 13
  {
    Pow(PrimeOf(pair1), 2) * Pow(PrimeOf(pair2), 2) * PrimeOf(kicker)
  }

  function PairKey(p: nat, k1: nat, k2: nat, k3: nat): int
    requires p < 13 && k1 < 13 && k2 < 13 && k3 < 13
  {
    Pow(PrimeOf(p), 2) * PrimeOf(k1) * PrimeOf(k2) * PrimeOf(k3)
  }

  // The keys of the inner loops, one row per outer iteration; every block
  // runs over the list `ranks` (`backwards_ranks` in the source).

  function FourRow(ranks: seq<nat>, i: nat): seq<int>
    requires AllRanks(ranks) && i < 13
  {
    var kickers := Kickers(ranks, i);
    seq(|kickers|, b requires 0 <= b < |kickers| => FourKey(i, kickers[b]))
  }

  function FourRows(ranks: seq<nat>): (rows: seq<seq<int>>)
    requires AllRanks(ranks)
    ensures |rows| == |ranks|
  {
    seq(|ranks|, a requires 0 <= a < |ranks| => FourRow(ranks, ranks[a]))
  }

  function FullHouseRow(ranks: seq<nat>, i: nat): seq<int>
    requires AllRanks(ranks) && i < 13
  {
    var pairranks := Kickers(ranks, i);
    seq(|pairranks|, b requires 0 <= b < |pairranks| => FullHouseKey(i, pairranks[b]))
  }

  function FullHouseRows(ranks: seq<nat>): (rows: seq<seq<int>>)
    requires AllRanks(ranks)
    ensures |rows| == |ranks|
  {
    seq(|ranks|, a requires 0 <= a < |ranks| => FullHouseRow(ranks, ranks[a]))
  }

  function TripsRow(ranks: seq<nat>, r: nat): seq<int>
    requires AllRanks(ranks) && r < 13
  {
    var gen := RankCombinations(Kickers(ranks, r), 2);
    seq(|gen|, b requires 0 <= b < |gen| => TripsKey(r, gen[b][0], gen[b][1]))
  }

  function TripsRows(ranks: seq<nat>): (rows: seq<seq<int>>)
    requires AllRanks(ranks)
    ensures |rows| == |ranks|
  {
    seq(|ranks|, a requires 0 <= a < |ranks| => TripsRow(ranks, ranks[a]))
  }

  /** The kickers of a two pair: `ranks` without either pair rank. */
  function TwoPairKickers(ranks: seq<nat>, pair1: nat, pair2: nat): (ks: seq<nat>)
    requires AllRanks(ranks)
    ensures AllRanks(ks)
  {
    Kickers(Kickers(ranks, pair1), pair2)
  }

  function TwoPairRow(ranks: seq<nat>, pair1: nat, pair2: nat): seq<int>
    requires AllRanks(ranks) && pair1 < 13 && pair2 < 13
  {
    var kickers := TwoPairKickers(ranks, pair1, pair2);
    seq(|kickers|, b requires 0 <= b < |kickers| => TwoPairKey(pair1, pair2, kickers[b]))
  }

  /** `ranks.iter().combinations(2)`: the two pair ranks, in list order. */
  function RankPairs(ranks: seq<nat>): (tpgen: seq<seq<nat>>)
    requires AllRanks(ranks)
    ensures forall a :: 0 <= a < |tpgen| ==> |tpgen[a]| == 2 && tpgen[a][0] < 13 && tpgen[a][1] < 13
  {
    RankCombinations(ranks, 2)
  }

  function TwoPairRows(ranks: seq<nat>): (rows: seq<seq<int>>)
    requires AllRanks(ranks)
    ensures |rows| == |RankPairs(ranks)|
  {
    var tpgen := RankPairs(ranks);
    seq(|tpgen|, a requires 0 <= a < |tpgen| => TwoPairRow(ranks, tpgen[a][0], tpgen[a][1]))
  }

  function PairRow(ranks: seq<nat>, pairrank: nat): seq<int>
    requires AllRanks(ranks) && pairrank < 13
  {
    var kgen := RankCombinations(Kickers(ranks, pairrank), 3);
    seq(|kgen|, b requires 0 <= b < |kgen| => PairKey(pairrank, kgen[b][0], kgen[b][1], kgen[b][2]))
  }

  function PairRows(ranks: seq<nat>): (rows: seq<seq<int>>)
    requires AllRanks(ranks)
    ensures |rows| == |ranks|
  {
    seq(|ranks|, a requires 0 <= a < |ranks| => PairRow(ranks, ranks[a]))
  }

  // The five blocks. Each outer iteration computes the keys of its inner
  // loop (the row functions above) and hands them to `InsertRow`, the inner
  // loop, which gives them consecutive ranks.

  /** The inner loop of every block: insert the keys of `row` in order, the
      next key getting the next rank. The table before the row is the one
      built from the keys `done` of the earlier rows. */
  method InsertRow(ghost m: Table, r0: Table, ghost done: seq<int>, row: seq<int>,
                   ghost start: int, rank0: int) returns (r: Table, rank: int)
    requires r0 == InsertRanks(m, done, start) && rank0 == start + |done|
    ensures r == InsertRanks(m, done + row, start)
    ensures rank == rank0 + |row|
  {
    r, rank := r0, rank0;
    assert done + row[..0] == done;
    for b := 0 to |row|
      invariant r == InsertRanks(m, done + row[..b], start)
      invariant rank == start + |done| + b
    {
      var product := row[b];
      InsertRowStep(m, done, row, b, start);
      r := r[product := rank];
      rank := rank + 1;
    }
    assert row[..|row|] == row;
  }

  /** Block: four of a kind, ranks from MAX_STRAIGHT_FLUSH + 1 on. */
  method FourOfAKind(m: Table, ranks: seq<nat>) returns (r: Table)
    requires AllRanks(ranks)
    ensures r == InsertRanks(m, Flatten(FourRows(ranks)), MAX_STRAIGHT_FLUSH + 1)
  {
    ghost var rows := FourRows(ranks);
    r := m;
    var rank := MAX_STRAIGHT_FLUSH + 1;
    for a := 0 to |ranks|
      invariant r == InsertRanks(m, Flatten(rows[..a]), MAX_STRAIGHT_FLUSH + 1)
      invariant rank == MAX_STRAIGHT_FLUSH + 1 + |Flatten(rows[..a])|
    {
      var i := ranks[a];
      r, rank := InsertRow(m, r, Flatten(rows[..a]), FourRow(ranks, i), MAX_STRAIGHT_FLUSH + 1, rank);
      FlattenSnoc(rows, a);
    }
    assert rows[..|ranks|] == rows;
  }

  /** Block: full house, ranks from MAX_FOUR_OF_A_KIND + 1 on. */
  method FullHouse(m: Table, ranks: seq<nat>) returns (r: Table)
    requires AllRanks(ranks)
    ensures r == InsertRanks(m, Flatten(FullHouseRows(ranks)), MAX_FOUR_OF_A_KIND + 1)
  {
    ghost var rows := FullHouseRows(ranks);
    r := m;
    var rank := MAX_FOUR_OF_A_KIND + 1;
    for a := 0 to |ranks|
      invariant r == InsertRanks(m, Flatten(rows[..a]), MAX_FOUR_OF_A_KIND + 1)
      invariant rank == MAX_FOUR_OF_A_KIND + 1 + |Flatten(rows[..a])|
    {
      var i := ranks[a];
      r, rank := InsertRow(m, r, Flatten(rows[..a]), FullHouseRow(ranks, i), MAX_FOUR_OF_A_KIND + 1, rank);
      FlattenSnoc(rows, a);
    }
    assert rows[..|ranks|] == rows;
  }

  /** Block: three of a kind, ranks from MAX_STRAIGHT + 1 on. */
  method ThreeOfAKind(m: Table, ranks: seq<nat>) returns (r: Table)
    requires AllRanks(ranks)
    ensures r == InsertRanks(m, Flatten(TripsRows(ranks)), MAX_STRAIGHT + 1)
  {
    ghost var rows := TripsRows(ranks);
    r := m;
    var rank := MAX_STRAIGHT + 1;
    for a := 0 to |ranks|
      invariant r == InsertRanks(m, Flatten(rows[..a]), MAX_STRAIGHT + 1)
      invariant rank == MAX_STRAIGHT + 1 + |Flatten(rows[..a])|
    {
      var rk := ranks[a];
      r, rank := InsertRow(m, r, Flatten(rows[..a]), TripsRow(ranks, rk), MAX_STRAIGHT + 1, rank);
      FlattenSnoc(rows, a);
    }
    assert rows[..|ranks|] == rows;
  }

  /** Block: two pair, ranks from MAX_THREE_OF_A_KIND + 1 on; the outer
      loop walks the pairs of `ranks`. */
  method TwoPair(m: Table, ranks: seq<nat>) returns (r: Table)
    requires AllRanks(ranks)
    ensures r == InsertRanks(m, Flatten(TwoPairRows(ranks)), MAX_THREE_OF_A_KIND + 1)
  {
    ghost var rows := TwoPairRows(ranks);
    r := m;
    var rank := MAX_THREE_OF_A_KIND + 1;
    var tpgen := RankPairs(ranks);
    for a := 0 to |tpgen|
      invariant r == InsertRanks(m, Flatten(rows[..a]), MAX_THREE_OF_A_KIND + 1)
      invariant rank == MAX_THREE_OF_A_KIND + 1 + |Flatten(rows[..a])|
    {
      var pair1, pair2 := tpgen[a][0], tpgen[a][1];
      r, rank := InsertRow(m, r, Flatten(rows[..a]), TwoPairRow(ranks, pair1, pair2), MAX_THREE_OF_A_KIND + 1, rank);
      FlattenSnoc(rows, a);
    }
    assert rows[..|tpgen|] == rows;
  }

  /** Block: pair, ranks from MAX_TWO_PAIR + 1 on. */
  method Pair(m: Table, ranks: seq<nat>) returns (r: Table)
    requires AllRanks(ranks)
    ensures r == InsertRanks(m, Flatten(PairRows(ranks)), MAX_TWO_PAIR + 1)
  {
    ghost var rows := PairRows(ranks);
    r := m;
    var rank := MAX_TWO_PAIR + 1;
    for a := 0 to |ranks|
      invariant r == InsertRanks(m, Flatten(rows[..a]), MAX_TWO_PAIR + 1)
      invariant rank == MAX_TWO_PAIR + 1 + |Flatten(rows[..a])|
    {
      var pairrank := ranks[a];
      r, rank := InsertRow(m, r, Flatten(rows[..a]), PairRow(ranks, pairrank), MAX_TWO_PAIR + 1, rank);
      FlattenSnoc(rows, a);
    }
    assert rows[..|ranks|] == rows;
  }

  /** The unsuited table after the five blocks, run in source order over `ranks`. */
  function MultiplesTable(m: Table, ranks: seq<nat>): Table
    requires AllRanks(ranks)
  {
    var four := InsertRanks(m, Flatten(FourRows(ranks)), MAX_STRAIGHT_FLUSH + 1);
    var full := InsertRanks(four, Flatten(FullHouseRows(ranks)), MAX_FOUR_OF_A_KIND + 1);
    var trips := InsertRanks(full, Flatten(TripsRows(ranks)), MAX_STRAIGHT + 1);
    var twoPair := InsertRanks(trips, Flatten(TwoPairRows(ranks)), MAX_THREE_OF_A_KIND + 1);
    InsertRanks(twoPair, Flatten(PairRows(ranks)), MAX_TWO_PAIR + 1)
  }

  /** `multiples`: the five blocks over `backwards_ranks`. */
  method BuildMultiples(unsuitedLookup: Table) returns (r: Table)
    ensures r == MultiplesTable(unsuitedLookup, BACKWARDS_RANKS)
  {
    var backwardsRanks := BACKWARDS_RANKS;
    BackwardsAreRanks();
    r := FourOfAKind(unsuitedLookup, backwardsRanks);
    r := FullHouse(r, backwardsRanks);
    r := ThreeOfAKind(r, backwardsRanks);
    r := TwoPair(r, backwardsRanks);
    r := Pair(r, backwardsRanks);
  }
}
