/** What the five `multiples` blocks (woker/src/main.rs:577-666) put into
    `unsuited_lookup`: how many keys each block inserts, that no key is
    inserted twice (the prime products of the hands differ), and so the rank
    each key ends up with. Every key is the prime product of a five-card rank
    multiset; the shape of that multiset (how many ranks occur four, three
    and two times) tells the blocks apart. */
module MultiplesRanks {
  import opened PokerCard
  import opened PrimeProducts
  import opened Combinatorics
  import opened LookupTables
  import opened Multiples

  // ---------------------------------------------------------------------
  // Shapes of rank multisets

  /** The number of ranks below n that occur exactly c times in ms. */
  function Occurring(ms: multiset<nat>, n: nat, c: nat): nat {
    if n == 0 then 0 else Occurring(ms, n - 1, c) + (if ms[n - 1] == c then 1 else 0)
  }

  /** How many ranks occur four, three and two times. */
  function Shape(ms: multiset<nat>): (nat, nat, nat) {
    (Occurring(ms, 13, 4), Occurring(ms, 13, 3), Occurring(ms, 13, 2))
  }

  /** Counting the ranks of a known set. */
  lemma {:induction false} OccurringIs(ms: multiset<nat>, n: nat, c: nat, xs: set<nat>)
    requires forall r :: r in xs ==> r < n
    requires forall r :: 0 <= r < n ==> (ms[r] == c <==> r in xs)
    ensures Occurring(ms, n, c) == |xs|
  {
    if n == 0 {
      assert xs == {};
    } else if n - 1 in xs {
      OccurringIs(ms, n - 1, c, xs - {n - 1});
    } else {
      OccurringIs(ms, n - 1, c, xs);
    }
  }

  /** A list without repeats holds every rank at most once. */
  lemma {:induction false} DistinctOnce(h: seq<nat>, r: nat)
    requires Distinct(h)
    ensures multiset(h)[r] <= 1
  {
    if h != [] {
      assert h == [h[0]] + h[1..];
      assert Distinct(h[1..]);
      DistinctOnce(h[1..], r);
      if h[0] == r {
        assert r !in h[1..];
      }
    }
  }

  /** A rank list without repeats has no rank occurring two or more times. */
  lemma DistinctShape(h: seq<nat>)
    requires Distinct(h)
    ensures Shape(multiset(h)) == (0, 0, 0)
  {
    var ms := multiset(h);
    forall r | 0 <= r < 13 ensures ms[r] <= 1 {
      DistinctOnce(h, r);
    }
    OccurringIs(ms, 13, 4, {});
    OccurringIs(ms, 13, 3, {});
    OccurringIs(ms, 13, 2, {});
  }

  lemma RankProductCons(r: nat, rs: seq<nat>)
    requires r < 13 && AllRanks(rs)
    ensures RankProduct([r] + rs) == PrimeOf(r) * RankProduct(rs)
  {
    assert ([r] + rs)[1..] == rs;
  }

  lemma Reassociate(x1: int, x2: int, x3: int, x4: int, x5: int)
    ensures x1 * (x2 * (x3 * (x4 * (x5 * 1)))) == x1 * x2 * x3 * x4 * x5
  {
  }

  /** The product of a five-rank hand, factor by factor. */
  lemma RankProductOfFive(a: nat, b: nat, c: nat, d: nat, e: nat)
    requires a < 13 && b < 13 && c < 13 && d < 13 && e < 13
    ensures AllRanks([a, b, c, d, e])
    ensures RankProduct([a, b, c, d, e]) == PrimeOf(a) * PrimeOf(b) * PrimeOf(c) * PrimeOf(d) * PrimeOf(e)
  {
    RankProductCons(e, []);
    RankProductCons(d, [e]);
    RankProductCons(c, [d, e]);
    RankProductCons(b, [c, d, e]);
    RankProductCons(a, [b, c, d, e]);
    assert [a] + [b, c, d, e] == [a, b, c, d, e];
    Reassociate(PrimeOf(a), PrimeOf(b), PrimeOf(c), PrimeOf(d), PrimeOf(e));
  }

  lemma SmallPowers(b: int)
    ensures Pow(b, 2) == b * b && Pow(b, 3) == b * b * b && Pow(b, 4) == b * b * b * b
  {
    assert Pow(b, 1) == b;
    assert Pow(b, 2) == b * Pow(b, 1);
    assert Pow(b, 3) == b * Pow(b, 2);
    assert Pow(b, 4) == b * Pow(b, 3);
  }

  // ---------------------------------------------------------------------
  // The five hand shapes: each key is the product of its hand

  lemma Regroup(x: int, y: int, z: int)
    ensures x * x * x * (y * y) == x * x * x * y * y
    ensures x * x * (y * y) * z == x * x * y * y * z
  {
  }

  // The rank counts of the five hand shapes.

  lemma FourCounts(i: nat, k: nat)
    requires i != k
    ensures forall r :: multiset([i, i, i, i, k])[r] == (if r == i then 4 else 0) + (if r == k then 1 else 0)
  {
  }

  lemma FullHouseCounts(i: nat, pr: nat)
    requires i != pr
    ensures forall r :: multiset([i, i, i, pr, pr])[r] == (if r == i then 3 else 0) + (if r == pr then 2 else 0)
  {
  }

  lemma TripsCounts(r: nat, c1: nat, c2: nat)
    ensures forall x :: multiset([r, r, r, c1, c2])[x]
                        == (if x == r then 3 else 0) + (if x == c1 then 1 else 0) + (if x == c2 then 1 else 0)
  {
  }

  lemma TwoPairCounts(pair1: nat, pair2: nat, kicker: nat)
    ensures forall x :: multiset([pair1, pair1, pair2, pair2, kicker])[x]
                        == (if x == pair1 then 2 else 0) + (if x == pair2 then 2 else 0) + (if x == kicker then 1 else 0)
  {
  }

  lemma PairCounts(p: nat, k1: nat, k2: nat, k3: nat)
    ensures forall x :: multiset([p, p, k1, k2, k3])[x]
                        == (if x == p then 2 else 0) + (if x == k1 then 1 else 0) + (if x == k2 then 1 else 0) + (if x == k3 then 1 else 0)
  {
  }

  // The keys are the products of their hands, and the hands have distinct shapes.

  lemma FourHand(i: nat, k: nat)
    requires i < 13 && k < 13 && i != k
    ensures AllRanks([i, i, i, i, k])
    ensures FourKey(i, k) == RankProduct([i, i, i, i, k])
    ensures Shape(multiset([i, i, i, i, k])) == (1, 0, 0)
  {
    RankProductOfFive(i, i, i, i, k);
    SmallPowers(PrimeOf(i));
    var ms := multiset([i, i, i, i, k]);
    FourCounts(i, k);
    OccurringIs(ms, 13, 4, {i});
    OccurringIs(ms, 13, 3, {});
    OccurringIs(ms, 13, 2, {});
  }

  lemma FullHouseHand(i: nat, pr: nat)
    requires i < 13 && pr < 13 && i != pr
    ensures AllRanks([i, i, i, pr, pr])
    ensures FullHouseKey(i, pr) == RankProduct([i, i, i, pr, pr])
    ensures Shape(multiset([i, i, i, pr, pr])) == (0, 1, 1)
  {
    RankProductOfFive(i, i, i, pr, pr);
    SmallPowers(PrimeOf(i));
    SmallPowers(PrimeOf(pr));
    Regroup(PrimeOf(i), PrimeOf(pr), 1);
    var ms := multiset([i, i, i, pr, pr]);
    FullHouseCounts(i, pr);
    OccurringIs(ms, 13, 4, {});
    OccurringIs(ms, 13, 3, {i});
    OccurringIs(ms, 13, 2, {pr});
  }

  lemma TripsHand(r: nat, c1: nat, c2: nat)
    requires r < 13 && c1 < 13 && c2 < 13 && r != c1 && r != c2 && c1 != c2
    ensures AllRanks([r, r, r, c1, c2])
    ensures TripsKey(r, c1, c2) == RankProduct([r, r, r, c1, c2])
    ensures Shape(multiset([r, r, r, c1, c2])) == (0, 1, 0)
  {
    RankProductOfFive(r, r, r, c1, c2);
    SmallPowers(PrimeOf(r));
    var ms := multiset([r, r, r, c1, c2]);
    TripsCounts(r, c1, c2);
    OccurringIs(ms, 13, 4, {});
    OccurringIs(ms, 13, 3, {r});
    OccurringIs(ms, 13, 2, {});
  }

  lemma TwoPairHand(pair1: nat, pair2: nat, kicker: nat)
    requires pair1 < 13 && pair2 < 13 && kicker < 13
    requires pair1 != pair2 && kicker != pair1 && kicker != pair2
    ensures AllRanks([pair1, pair1, pair2, pair2, kicker])
    ensures TwoPairKey(pair1, pair2, kicker) == RankProduct([pair1, pair1, pair2, pair2, kicker])
    ensures Shape(multiset([pair1, pair1, pair2, pair2, kicker])) == (0, 0, 2)
  {
    RankProductOfFive(pair1, pair1, pair2, pair2, kicker);
    SmallPowers(PrimeOf(pair1));
    SmallPowers(PrimeOf(pair2));
    Regroup(PrimeOf(pair1), PrimeOf(pair2), PrimeOf(kicker));
    var ms := multiset([pair1, pair1, pair2, pair2, kicker]);
    TwoPairCounts(pair1, pair2, kicker);
    OccurringIs(ms, 13, 4, {});
    OccurringIs(ms, 13, 3, {});
    OccurringIs(ms, 13, 2, {pair1, pair2});
  }

  lemma PairHand(p: nat, k1: nat, k2: nat, k3: nat)
    requires p < 13 && k1 < 13 && k2 < 13 && k3 < 13
    requires p != k1 && p != k2 && p != k3 && k1 != k2 && k1 != k3 && k2 != k3
    ensures AllRanks([p, p, k1, k2, k3])
    ensures PairKey(p, k1, k2, k3) == RankProduct([p, p, k1, k2, k3])
    ensures Shape(multiset([p, p, k1, k2, k3])) == (0, 0, 1)
  {
    RankProductOfFive(p, p, k1, k2, k3);
    SmallPowers(PrimeOf(p));
    var ms := multiset([p, p, k1, k2, k3]);
    PairCounts(p, k1, k2, k3);
    OccurringIs(ms, 13, 4, {});
    OccurringIs(ms, 13, 3, {});
    OccurringIs(ms, 13, 2, {p});
  }

  // ---------------------------------------------------------------------
  // Within a block, the hand is determined by its key

  lemma FourKeyInjective(i: nat, k: nat, i': nat, k': nat)
    requires i < 13 && k < 13 && i != k && i' < 13 && k' < 13 && i' != k'
    ensures FourKey(i, k) == FourKey(i', k') <==> i == i' && k == k'
  {
    if FourKey(i, k) == FourKey(i', k') {
      FourHand(i, k);
      FourHand(i', k');
      RankProductInjective([i, i, i, i, k], [i', i', i', i', k']);
      var ms, ms' := multiset([i, i, i, i, k]), multiset([i', i', i', i', k']);
      FourCounts(i, k);
      FourCounts(i', k');
      assert ms'[i] == 4;
      assert ms'[k] == 1;
    }
  }

  lemma FullHouseKeyInjective(i: nat, pr: nat, i': nat, pr': nat)
    requires i < 13 && pr < 13 && i != pr && i' < 13 && pr' < 13 && i' != pr'
    ensures FullHouseKey(i, pr) == FullHouseKey(i', pr') <==> i == i' && pr == pr'
  {
    if FullHouseKey(i, pr) == FullHouseKey(i', pr') {
      FullHouseHand(i, pr);
      FullHouseHand(i', pr');
      RankProductInjective([i, i, i, pr, pr], [i', i', i', pr', pr']);
      var ms, ms' := multiset([i, i, i, pr, pr]), multiset([i', i', i', pr', pr']);
      FullHouseCounts(i, pr);
      FullHouseCounts(i', pr');
      assert ms'[i] == 3;
      assert ms'[pr] == 2;
    }
  }

  /** Trips with their two kickers in descending order. */
  predicate TripsHandOk(r: nat, c1: nat, c2: nat) {
    r < 13 && c1 < 13 && c2 < 13 && r != c1 && r != c2 && c1 > c2
  }

  lemma TripsKeyInjective(r: nat, c1: nat, c2: nat, r': nat, c1': nat, c2': nat)
    requires TripsHandOk(r, c1, c2) && TripsHandOk(r', c1', c2')
    ensures TripsKey(r, c1, c2) == TripsKey(r', c1', c2') <==> r == r' && c1 == c1' && c2 == c2'
  {
    if TripsKey(r, c1, c2) == TripsKey(r', c1', c2') {
      TripsHand(r, c1, c2);
      TripsHand(r', c1', c2');
      RankProductInjective([r, r, r, c1, c2], [r', r', r', c1', c2']);
      var ms, ms' := multiset([r, r, r, c1, c2]), multiset([r', r', r', c1', c2']);
      TripsCounts(r, c1, c2);
      TripsCounts(r', c1', c2');
      assert ms'[r] == 3;
      assert ms'[c1] == 1 && ms'[c2] == 1;
      assert ms[c1'] == 1 && ms[c2'] == 1;
    }
  }

  /** Two pairs in descending order and a kicker. */
  predicate TwoPairHandOk(pair1: nat, pair2: nat, kicker: nat) {
    pair1 < 13 && pair2 < 13 && kicker < 13 && pair1 > pair2 && kicker != pair1 && kicker != pair2
  }

  lemma TwoPairKeyInjective(pair1: nat, pair2: nat, kicker: nat, pair1': nat, pair2': nat, kicker': nat)
    requires TwoPairHandOk(pair1, pair2, kicker) && TwoPairHandOk(pair1', pair2', kicker')
    ensures TwoPairKey(pair1, pair2, kicker) == TwoPairKey(pair1', pair2', kicker')
            <==> pair1 == pair1' && pair2 == pair2' && kicker == kicker'
  {
    if TwoPairKey(pair1, pair2, kicker) == TwoPairKey(pair1', pair2', kicker') {
      TwoPairHand(pair1, pair2, kicker);
      TwoPairHand(pair1', pair2', kicker');
      RankProductInjective([pair1, pair1, pair2, pair2, kicker], [pair1', pair1', pair2', pair2', kicker']);
      var ms, ms' := multiset([pair1, pair1, pair2, pair2, kicker]), multiset([pair1', pair1', pair2', pair2', kicker']);
      TwoPairCounts(pair1, pair2, kicker);
      TwoPairCounts(pair1', pair2', kicker');
      assert ms'[kicker] == 1;
      assert ms'[pair1] == 2 && ms'[pair2] == 2;
      assert ms[pair1'] == 2 && ms[pair2'] == 2;
    }
  }

  /** A pair and three kickers in descending order. */
  predicate PairHandOk(p: nat, k1: nat, k2: nat, k3: nat) {
    p < 13 && k1 < 13 && k2 < 13 && k3 < 13 && k1 > k2 > k3 && p != k1 && p != k2 && p != k3
  }

  lemma PairKeyInjective(p: nat, k1: nat, k2: nat, k3: nat, p': nat, k1': nat, k2': nat, k3': nat)
    requires PairHandOk(p, k1, k2, k3) && PairHandOk(p', k1', k2', k3')
    ensures PairKey(p, k1, k2, k3) == PairKey(p', k1', k2', k3') <==> p == p' && k1 == k1' && k2 == k2' && k3 == k3'
  {
    if PairKey(p, k1, k2, k3) == PairKey(p', k1', k2', k3') {
      PairHand(p, k1, k2, k3);
      PairHand(p', k1', k2', k3');
      RankProductInjective([p, p, k1, k2, k3], [p', p', k1', k2', k3']);
      var ms, ms' := multiset([p, p, k1, k2, k3]), multiset([p', p', k1', k2', k3']);
      PairCounts(p, k1, k2, k3);
      PairCounts(p', k1', k2', k3');
      assert ms'[p] == 2;
      assert ms'[k1] == 1 && ms'[k2] == 1 && ms'[k3] == 1;
      assert ms[k1'] == 1 && ms[k2'] == 1 && ms[k3'] == 1;
    }
  }

  // ---------------------------------------------------------------------
  // The keys of each block: what they are, and that none repeats.
  // `ranks` is any descending list of ranks (the source uses all thirteen).

  lemma KickerOf(ranks: seq<nat>, x: nat, b: nat)
    requires AllRanks(ranks) && b < |Kickers(ranks, x)|
    ensures Kickers(ranks, x)[b] in ranks && Kickers(ranks, x)[b] != x
  {
    assert Kickers(ranks, x)[b] in Kickers(ranks, x);
  }

  lemma FourRowMember(ranks: seq<nat>, i: nat, x: int) returns (k: nat)
    requires AllRanks(ranks) && i < 13 && x in FourRow(ranks, i)
    ensures k < 13 && k != i && k in ranks && x == FourKey(i, k)
  {
    var kickers := Kickers(ranks, i);
    var b :| 0 <= b < |kickers| && FourRow(ranks, i)[b] == x;
    KickerOf(ranks, i, b);
    k := kickers[b];
  }

  lemma FourRowDistinct(ranks: seq<nat>, i: nat)
    requires AllRanks(ranks) && Distinct(ranks) && i < 13
    ensures Distinct(FourRow(ranks, i))
  {
    var kickers, row := Kickers(ranks, i), FourRow(ranks, i);
    WithoutDistinct(ranks, i);
    forall b, b' | 0 <= b < b' < |row| ensures row[b] != row[b'] {
      KickerOf(ranks, i, b);
      KickerOf(ranks, i, b');
      FourKeyInjective(i, kickers[b], i, kickers[b']);
    }
  }

  /** The four-of-a-kind block inserts no key twice. */
  lemma FourKeysDistinct(ranks: seq<nat>)
    requires AllRanks(ranks) && Distinct(ranks)
    ensures Distinct(Flatten(FourRows(ranks)))
  {
    var rows := FourRows(ranks);
    forall a | 0 <= a < |rows| ensures Distinct(rows[a]) {
      FourRowDistinct(ranks, ranks[a]);
    }
    forall a, a', x | 0 <= a < a' < |rows| && x in rows[a] ensures x !in rows[a'] {
      if x in rows[a'] {
        var k := FourRowMember(ranks, ranks[a], x);
        var k' := FourRowMember(ranks, ranks[a'], x);
        FourKeyInjective(ranks[a], k, ranks[a'], k');
      }
    }
    FlattenDistinct(rows);
  }

  /** Every four-of-a-kind key is the product of a hand of shape (1, 0, 0). */
  lemma FourKeyShape(ranks: seq<nat>, x: int) returns (h: seq<nat>)
    requires AllRanks(ranks) && x in Flatten(FourRows(ranks))
    ensures AllRanks(h) && RankProduct(h) == x && Shape(multiset(h)) == (1, 0, 0)
  {
    var a := FlattenMember(FourRows(ranks), x);
    var i := ranks[a];
    var k := FourRowMember(ranks, i, x);
    FourHand(i, k);
    h := [i, i, i, i, k];
  }

  lemma FullHouseRowMember(ranks: seq<nat>, i: nat, x: int) returns (pr: nat)
    requires AllRanks(ranks) && i < 13 && x in FullHouseRow(ranks, i)
    ensures pr < 13 && pr != i && pr in ranks && x == FullHouseKey(i, pr)
  {
    var pairranks := Kickers(ranks, i);
    var b :| 0 <= b < |pairranks| && FullHouseRow(ranks, i)[b] == x;
    KickerOf(ranks, i, b);
    pr := pairranks[b];
  }

  lemma FullHouseRowDistinct(ranks: seq<nat>, i: nat)
    requires AllRanks(ranks) && Distinct(ranks) && i < 13
    ensures Distinct(FullHouseRow(ranks, i))
  {
    var pairranks, row := Kickers(ranks, i), FullHouseRow(ranks, i);
    WithoutDistinct(ranks, i);
    forall b, b' | 0 <= b < b' < |row| ensures row[b] != row[b'] {
      KickerOf(ranks, i, b);
      KickerOf(ranks, i, b');
      FullHouseKeyInjective(i, pairranks[b], i, pairranks[b']);
    }
  }

  /** The full-house block inserts no key twice. */
  lemma FullHouseKeysDistinct(ranks: seq<nat>)
    requires AllRanks(ranks) && Distinct(ranks)
    ensures Distinct(Flatten(FullHouseRows(ranks)))
  {
    var rows := FullHouseRows(ranks);
    forall a | 0 <= a < |rows| ensures Distinct(rows[a]) {
      FullHouseRowDistinct(ranks, ranks[a]);
    }
    forall a, a', x | 0 <= a < a' < |rows| && x in rows[a] ensures x !in rows[a'] {
      if x in rows[a'] {
        var pr := FullHouseRowMember(ranks, ranks[a], x);
        var pr' := FullHouseRowMember(ranks, ranks[a'], x);
        FullHouseKeyInjective(ranks[a], pr, ranks[a'], pr');
      }
    }
    FlattenDistinct(rows);
  }

  /** Every full-house key is the product of a hand of shape (0, 1, 1). */
  lemma FullHouseKeyShape(ranks: seq<nat>, x: int) returns (h: seq<nat>)
    requires AllRanks(ranks) && x in Flatten(FullHouseRows(ranks))
    ensures AllRanks(h) && RankProduct(h) == x && Shape(multiset(h)) == (0, 1, 1)
  {
    var a := FlattenMember(FullHouseRows(ranks), x);
    var i := ranks[a];
    var pr := FullHouseRowMember(ranks, i, x);
    FullHouseHand(i, pr);
    h := [i, i, i, pr, pr];
  }

  /** A combination of a descending list is descending and drawn from the list. */
  lemma ComboOf(s: seq<nat>, k: nat, b: nat)
    requires Descending(s) && b < |Combinations(s, k)|
    ensures |Combinations(s, k)[b]| == k && Descending(Combinations(s, k)[b])
    ensures forall x :: x in Combinations(s, k)[b] ==> x in s
  {
    var c := Combinations(s, k)[b];
    assert c in Combinations(s, k);
    CombinationsShape(s, k);
    CombinationsDescending(s, k);
  }

  /** Two different combinations of a descending list. */
  lemma CombosDiffer(s: seq<nat>, k: nat, b: nat, b': nat)
    requires Descending(s) && b < b' < |Combinations(s, k)|
    ensures Combinations(s, k)[b] != Combinations(s, k)[b']
  {
    CombinationsDescending(s, k);
  }

  lemma TripsRowMember(ranks: seq<nat>, r: nat, b: nat) returns (c1: nat, c2: nat)
    requires AllRanks(ranks) && Descending(ranks) && r < 13 && b < |TripsRow(ranks, r)|
    ensures TripsHandOk(r, c1, c2) && c1 in ranks && c2 in ranks && TripsRow(ranks, r)[b] == TripsKey(r, c1, c2)
    ensures [c1, c2] == RankCombinations(Kickers(ranks, r), 2)[b]
  {
    var kickers := Kickers(ranks, r);
    WithoutDescending(ranks, r);
    ComboOf(kickers, 2, b);
    var c := Combinations(kickers, 2)[b];
    assert c[0] in c && c[1] in c;
    c1, c2 := c[0], c[1];
    assert c == [c1, c2];
  }

  lemma TripsRowDistinct(ranks: seq<nat>, r: nat)
    requires AllRanks(ranks) && Descending(ranks) && r < 13
    ensures Distinct(TripsRow(ranks, r))
  {
    var row := TripsRow(ranks, r);
    forall b, b' | 0 <= b < b' < |row| ensures row[b] != row[b'] {
      var c1, c2 := TripsRowMember(ranks, r, b);
      var c1', c2' := TripsRowMember(ranks, r, b');
      WithoutDescending(ranks, r);
      CombosDiffer(Kickers(ranks, r), 2, b, b');
      TripsKeyInjective(r, c1, c2, r, c1', c2');
    }
  }

  /** The three-of-a-kind block inserts no key twice. */
  lemma TripsKeysDistinct(ranks: seq<nat>)
    requires AllRanks(ranks) && Descending(ranks)
    ensures Distinct(Flatten(TripsRows(ranks)))
  {
    var rows := TripsRows(ranks);
    forall a | 0 <= a < |rows| ensures Distinct(rows[a]) {
      TripsRowDistinct(ranks, ranks[a]);
    }
    forall a, a', x | 0 <= a < a' < |rows| && x in rows[a] ensures x !in rows[a'] {
      if x in rows[a'] {
        var b :| 0 <= b < |rows[a]| && rows[a][b] == x;
        var b' :| 0 <= b' < |rows[a']| && rows[a'][b'] == x;
        var c1, c2 := TripsRowMember(ranks, ranks[a], b);
        var c1', c2' := TripsRowMember(ranks, ranks[a'], b');
        TripsKeyInjective(ranks[a], c1, c2, ranks[a'], c1', c2');
      }
    }
    FlattenDistinct(rows);
  }

  /** Every three-of-a-kind key is the product of a hand of shape (0, 1, 0). */
  lemma TripsKeyShape(ranks: seq<nat>, x: int) returns (h: seq<nat>)
    requires AllRanks(ranks) && Descending(ranks) && x in Flatten(TripsRows(ranks))
    ensures AllRanks(h) && RankProduct(h) == x && Shape(multiset(h)) == (0, 1, 0)
  {
    var a := FlattenMember(TripsRows(ranks), x);
    var r := ranks[a];
    var b :| 0 <= b < |TripsRow(ranks, r)| && TripsRow(ranks, r)[b] == x;
    var c1, c2 := TripsRowMember(ranks, r, b);
    TripsHand(r, c1, c2);
    h := [r, r, r, c1, c2];
  }

  lemma TwoPairOf(ranks: seq<nat>, a: nat) returns (pair1: nat, pair2: nat)
    requires AllRanks(ranks) && Descending(ranks) && a < |RankPairs(ranks)|
    ensures pair1 < 13 && pair2 < 13 && pair1 > pair2 && pair1 in ranks && pair2 in ranks
    ensures [pair1, pair2] == RankPairs(ranks)[a]
    ensures TwoPairRows(ranks)[a] == TwoPairRow(ranks, pair1, pair2)
  {
    ComboOf(ranks, 2, a);
    var c := Combinations(ranks, 2)[a];
    assert c[0] in c && c[1] in c;
    pair1, pair2 := c[0], c[1];
    assert c == [pair1, pair2];
  }

  lemma TwoPairRowMember(ranks: seq<nat>, pair1: nat, pair2: nat, b: nat) returns (kicker: nat)
    requires AllRanks(ranks) && pair1 < 13 && pair2 < 13 && pair1 > pair2
    requires b < |TwoPairRow(ranks, pair1, pair2)|
    ensures TwoPairHandOk(pair1, pair2, kicker) && kicker in ranks
    ensures TwoPairRow(ranks, pair1, pair2)[b] == TwoPairKey(pair1, pair2, kicker)
    ensures kicker == TwoPairKickers(ranks, pair1, pair2)[b]
  {
    var kickers := TwoPairKickers(ranks, pair1, pair2);
    kicker := kickers[b];
    assert kicker in kickers;
  }

  lemma TwoPairRowDistinct(ranks: seq<nat>, pair1: nat, pair2: nat)
    requires AllRanks(ranks) && Distinct(ranks) && pair1 < 13 && pair2 < 13 && pair1 > pair2
    ensures Distinct(TwoPairRow(ranks, pair1, pair2))
  {
    var row := TwoPairRow(ranks, pair1, pair2);
    var kickers := TwoPairKickers(ranks, pair1, pair2);
    WithoutDistinct(ranks, pair1);
    WithoutDistinct(Kickers(ranks, pair1), pair2);
    forall b, b' | 0 <= b < b' < |row| ensures row[b] != row[b'] {
      var k := TwoPairRowMember(ranks, pair1, pair2, b);
      var k' := TwoPairRowMember(ranks, pair1, pair2, b');
      TwoPairKeyInjective(pair1, pair2, k, pair1, pair2, k');
    }
  }

  /** The two-pair block inserts no key twice. */
  lemma TwoPairKeysDistinct(ranks: seq<nat>)
    requires AllRanks(ranks) && Descending(ranks)
    ensures Distinct(Flatten(TwoPairRows(ranks)))
  {
    var rows := TwoPairRows(ranks);
    DescendingDistinct(ranks);
    forall a | 0 <= a < |rows| ensures Distinct(rows[a]) {
      var pair1, pair2 := TwoPairOf(ranks, a);
      TwoPairRowDistinct(ranks, pair1, pair2);
    }
    forall a, a', x | 0 <= a < a' < |rows| && x in rows[a] ensures x !in rows[a'] {
      if x in rows[a'] {
        var pair1, pair2 := TwoPairOf(ranks, a);
        var pair1', pair2' := TwoPairOf(ranks, a');
        var b :| 0 <= b < |rows[a]| && rows[a][b] == x;
        var b' :| 0 <= b' < |rows[a']| && rows[a'][b'] == x;
        var k := TwoPairRowMember(ranks, pair1, pair2, b);
        var k' := TwoPairRowMember(ranks, pair1', pair2', b');
        TwoPairKeyInjective(pair1, pair2, k, pair1', pair2', k');
        CombosDiffer(ranks, 2, a, a');
      }
    }
    FlattenDistinct(rows);
  }

  /** Every two-pair key is the product of a hand of shape (0, 0, 2). */
  lemma TwoPairKeyShape(ranks: seq<nat>, x: int) returns (h: seq<nat>)
    requires AllRanks(ranks) && Descending(ranks) && x in Flatten(TwoPairRows(ranks))
    ensures AllRanks(h) && RankProduct(h) == x && Shape(multiset(h)) == (0, 0, 2)
  {
    var a := FlattenMember(TwoPairRows(ranks), x);
    var pair1, pair2 := TwoPairOf(ranks, a);
    var row := TwoPairRow(ranks, pair1, pair2);
    var b :| 0 <= b < |row| && row[b] == x;
    var k := TwoPairRowMember(ranks, pair1, pair2, b);
    TwoPairHand(pair1, pair2, k);
    h := [pair1, pair1, pair2, pair2, k];
  }

  lemma PairRowMember(ranks: seq<nat>, p: nat, b: nat) returns (k1: nat, k2: nat, k3: nat)
    requires AllRanks(ranks) && Descending(ranks) && p < 13 && b < |PairRow(ranks, p)|
    ensures PairHandOk(p, k1, k2, k3) && PairRow(ranks, p)[b] == PairKey(p, k1, k2, k3)
    ensures [k1, k2, k3] == RankCombinations(Kickers(ranks, p), 3)[b]
  {
    var kickers := Kickers(ranks, p);
    WithoutDescending(ranks, p);
    ComboOf(kickers, 3, b);
    var c := Combinations(kickers, 3)[b];
    assert c[0] in c && c[1] in c && c[2] in c;
    k1, k2, k3 := c[0], c[1], c[2];
    assert c == [k1, k2, k3];
  }

  lemma PairRowDistinct(ranks: seq<nat>, p: nat)
    requires AllRanks(ranks) && Descending(ranks) && p < 13
    ensures Distinct(PairRow(ranks, p))
  {
    var row := PairRow(ranks, p);
    forall b, b' | 0 <= b < b' < |row| ensures row[b] != row[b'] {
      var k1, k2, k3 := PairRowMember(ranks, p, b);
      var k1', k2', k3' := PairRowMember(ranks, p, b');
      WithoutDescending(ranks, p);
      CombosDiffer(Kickers(ranks, p), 3, b, b');
      PairKeyInjective(p, k1, k2, k3, p, k1', k2', k3');
    }
  }

  /** The pair block inserts no key twice. */
  lemma PairKeysDistinct(ranks: seq<nat>)
    requires AllRanks(ranks) && Descending(ranks)
    ensures Distinct(Flatten(PairRows(ranks)))
  {
    var rows := PairRows(ranks);
    forall a | 0 <= a < |rows| ensures Distinct(rows[a]) {
      PairRowDistinct(ranks, ranks[a]);
    }
    forall a, a', x | 0 <= a < a' < |rows| && x in rows[a] ensures x !in rows[a'] {
      if x in rows[a'] {
        var b :| 0 <= b < |rows[a]| && rows[a][b] == x;
        var b' :| 0 <= b' < |rows[a']| && rows[a'][b'] == x;
        var k1, k2, k3 := PairRowMember(ranks, ranks[a], b);
        var k1', k2', k3' := PairRowMember(ranks, ranks[a'], b');
        PairKeyInjective(ranks[a], k1, k2, k3, ranks[a'], k1', k2', k3');
      }
    }
    FlattenDistinct(rows);
  }

  /** Every pair key is the product of a hand of shape (0, 0, 1). */
  lemma PairKeyShape(ranks: seq<nat>, x: int) returns (h: seq<nat>)
    requires AllRanks(ranks) && Descending(ranks) && x in Flatten(PairRows(ranks))
    ensures AllRanks(h) && RankProduct(h) == x && Shape(multiset(h)) == (0, 0, 1)
  {
    var a := FlattenMember(PairRows(ranks), x);
    var p := ranks[a];
    var b :| 0 <= b < |PairRow(ranks, p)| && PairRow(ranks, p)[b] == x;
    var k1, k2, k3 := PairRowMember(ranks, p, b);
    PairHand(p, k1, k2, k3);
    h := [p, p, k1, k2, k3];
  }
}
