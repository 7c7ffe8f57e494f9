/** The evaluator of woker/src/main.rs: `_five` (348-372), `_six` (374-394),
    `_seven` (396-402) and `evaluate` (329-346). A lookup of a key that is
    not in a table panics in the source; here it gives `None`, and so does a
    hand size that `hand_size_map` does not list. */
module Evaluator {
  import opened Wrappers
  import opened PokerCard
  import opened PrimeProducts
  import opened Combinatorics
  import opened LookupTables

  /** A card as `evaluate` receives it: the two characters it was made from
      and its packed integer. Only the integer is used. */
  datatype HeldCard = HeldCard(chars: (char, char), card: Card)

  /** `table[&key]`. */
  function Lookup(table: Table, key: int): (r: Option<int>)
    ensures r.Some? <==> key in table
  {
    if key in table then Some(table[key]) else None
  }

  /** The flush test of `_five`: the suit nibbles of the first five cards
      have a bit in common. */
  predicate FlushTest(cards: seq<Card>)
    requires |cards| >= 5
  {
    cards[0] & cards[1] & cards[2] & cards[3] & cards[4] & 0xF000 != 0
  }

  /** The rank bits of the first five cards, OR-ed together. */
  function RankField(cards: seq<Card>): bv64
    requires |cards| >= 5
  {
    (cards[0] | cards[1] | cards[2] | cards[3] | cards[4]) >> 16
  }

  /** `_five`: a flush is looked up in `flush_lookup` by the product of its
      rank bits, any other hand in `unsuited_lookup` by the product of its
      cards' primes. Fewer than five cards make the indexing panic. */
  function Five(cards: seq<Card>, flushLookup: Table, unsuitedLookup: Table): Option<int>
  {
    if |cards| < 5 then None
    else if FlushTest(cards) then Lookup(flushLookup, RankbitsProduct(RankField(cards), 13))
    else Lookup(unsuitedLookup, HandProduct(cards))
  }

  /** Five cards built by `card`. */
  predicate ValidFive(cards: seq<Card>) {
    |cards| == 5 && forall i :: 0 <= i < 5 ==> ValidCard(cards[i])
  }

  /** All five cards share a suit. */
  predicate Suited(cards: seq<Card>)
    requires |cards| == 5
  {
    Suit(cards[0]) == Suit(cards[1]) == Suit(cards[2]) == Suit(cards[3]) == Suit(cards[4])
  }

  /** The bit of rank r (see OneHotIsShift). */
  function OneHot(r: bv64): bv64
    requires r < 13
  {
    if r == 0 then 1 else if r == 1 then 2 else if r == 2 then 4 else if r == 3 then 8
    else if r == 4 then 16 else if r == 5 then 32 else if r == 6 then 64 else if r == 7 then 128
    else if r == 8 then 256 else if r == 9 then 512 else if r == 10 then 1024 else if r == 11 then 2048
    else 4096
  }

  lemma OneHotIsShift(r: bv64)
    requires r < 13
    ensures OneHot(r) == 1 << r
  {
  }

  /** The bits of the ranks of five cards, OR-ed together. */
  function RankBitsOf(cards: seq<Card>): bv64
    requires |cards| == 5 && forall k :: 0 <= k < 5 ==> Rank(cards[k]) < 13
  {
    OneHot(Rank(cards[0])) | OneHot(Rank(cards[1])) | OneHot(Rank(cards[2])) | OneHot(Rank(cards[3])) | OneHot(Rank(cards[4]))
  }

  lemma SuitNibble(c: Card)
    requires ValidCard(c)
    ensures c & 0xF000 == Suit(c) << 12
  {
    EncodeFields(Rank(c), Suit(c));
    assert PRIMES[Rank(c)] < 256;
  }

  lemma OneHotAnd(a: bv64, b: bv64, c: bv64, d: bv64, e: bv64)
    requires IsSuit(a) && IsSuit(b) && IsSuit(c) && IsSuit(d) && IsSuit(e)
    ensures (a << 12) & (b << 12) & (c << 12) & (d << 12) & (e << 12) != 0 <==> a == b == c == d == e
  {
    assert (a << 12) & (b << 12) & (c << 12) & (d << 12) & (e << 12) == (a & b & c & d & e) << 12;
  }

  /** `_five` takes the flush branch exactly when the five cards share a suit. */
  lemma FlushTestIffSuited(cards: seq<Card>)
    requires ValidFive(cards)
    ensures FlushTest(cards) <==> Suited(cards)
  {
    forall k | 0 <= k < 5 ensures cards[k] & 0xF000 == Suit(cards[k]) << 12 && IsSuit(Suit(cards[k])) {
      SuitNibble(cards[k]);
    }
    SuitsMeet(cards);
  }

  lemma SuitsMeet(cards: seq<Card>)
    requires |cards| == 5
    requires forall k :: 0 <= k < 5 ==> cards[k] & 0xF000 == Suit(cards[k]) << 12 && IsSuit(Suit(cards[k]))
    ensures FlushTest(cards) <==> Suited(cards)
  {
    var c0, c1, c2, c3, c4 := cards[0], cards[1], cards[2], cards[3], cards[4];
    MaskAnd(c0, c1, c2, c3, c4, 0xF000);
    OneHotAnd(Suit(c0), Suit(c1), Suit(c2), Suit(c3), Suit(c4));
  }

  lemma MaskAnd(c0: bv64, c1: bv64, c2: bv64, c3: bv64, c4: bv64, m: bv64)
    ensures c0 & c1 & c2 & c3 & c4 & m == (c0 & m) & (c1 & m) & (c2 & m) & (c3 & m) & (c4 & m)
  {
  }

  lemma OrShift(a: Card, b: Card, c: Card, d: Card, e: Card)
    ensures (a | b | c | d | e) >> 16 == (a >> 16) | (b >> 16) | (c >> 16) | (d >> 16) | (e >> 16)
  {
  }

  lemma BitRankOneHot(c: Card)
    requires ValidCard(c)
    ensures c >> 16 == OneHot(Rank(c))
  {
    EncodeFields(Rank(c), Suit(c));
    OneHotIsShift(Rank(c));
  }

  /** The rank field of five cards is the OR of the bits of their ranks. */
  lemma RankFieldOfCards(cards: seq<Card>)
    requires ValidFive(cards)
    ensures RankField(cards) == RankBitsOf(cards)
  {
    forall k | 0 <= k < 5 ensures Rank(cards[k]) < 13 && cards[k] >> 16 == OneHot(Rank(cards[k])) {
      BitRankOneHot(cards[k]);
    }
    RankFieldOfBits(cards);
  }

  lemma RankFieldOfBits(cards: seq<Card>)
    requires |cards| == 5
    requires forall k :: 0 <= k < 5 ==> Rank(cards[k]) < 13 && cards[k] >> 16 == OneHot(Rank(cards[k]))
    ensures RankField(cards) == RankBitsOf(cards)
  {
    OrShift(cards[0], cards[1], cards[2], cards[3], cards[4]);
  }

  /** What `_five` looks up for five cards built by `card`: a suited hand by
      the rank-bits product of its ranks in `flush_lookup`, any other hand by
      the product of its rank primes in `unsuited_lookup`. */
  lemma FiveLooksUp(cards: seq<Card>, flushLookup: Table, unsuitedLookup: Table)
    requires ValidFive(cards)
    ensures Suited(cards) ==>
      Five(cards, flushLookup, unsuitedLookup) == Lookup(flushLookup, RankbitsProduct(RankBitsOf(cards), 13))
    ensures !Suited(cards) ==>
      Five(cards, flushLookup, unsuitedLookup) == Lookup(unsuitedLookup, RankProduct(Ranks(cards)))
  {
    FlushTestIffSuited(cards);
    RankFieldOfCards(cards);
    HandProductOfCards(cards);
  }

  /** When every rank in both tables lies in lo .. hi, so does whatever `_five` finds. */
  lemma FiveWithin(cards: seq<Card>, flushLookup: Table, unsuitedLookup: Table, lo: int, hi: int)
    requires RanksWithin(flushLookup, lo, hi) && RanksWithin(unsuitedLookup, lo, hi)
    ensures Five(cards, flushLookup, unsuitedLookup).Some? ==> lo <= Five(cards, flushLookup, unsuitedLookup).value <= hi
  {
  }

  /** Two orderings of the same unsuited cards get the same rank: the key
      depends only on the multiset of ranks. */
  lemma FiveUnsuitedOrderFree(a: seq<Card>, b: seq<Card>, flushLookup: Table, unsuitedLookup: Table)
    requires ValidFive(a) && ValidFive(b) && !Suited(a) && !Suited(b)
    requires multiset(Ranks(a)) == multiset(Ranks(b))
    ensures Five(a, flushLookup, unsuitedLookup) == Five(b, flushLookup, unsuitedLookup)
  {
    FiveLooksUp(a, flushLookup, unsuitedLookup);
    FiveLooksUp(b, flushLookup, unsuitedLookup);
    RankProductInjective(Ranks(a), Ranks(b));
  }

  /** The value of `minimum` in `_six` after the given five-card combinations,
      starting from MAX_HIGH_CARD; `None` once a lookup has panicked. */
  function BestOfFives(combos: seq<seq<Card>>, flushLookup: Table, unsuitedLookup: Table): Option<int>
  {
    if combos == [] then Some(MAX_HIGH_CARD)
    else
      match BestOfFives(combos[..|combos| - 1], flushLookup, unsuitedLookup)
      case None => None
      case Some(minimum) =>
        match Five(combos[|combos| - 1], flushLookup, unsuitedLookup)
        case None => None
        case Some(score) => Some(if score < minimum then score else minimum)
  }

  /** `_six` returns the smallest rank among the combinations, capped at
      MAX_HIGH_CARD, and panics exactly when one of their lookups does. */
  lemma {:induction false} BestOfFivesIsMinimum(combos: seq<seq<Card>>, flushLookup: Table, unsuitedLookup: Table)
    ensures BestOfFives(combos, flushLookup, unsuitedLookup).Some?
      <==> forall j :: 0 <= j < |combos| ==> Five(combos[j], flushLookup, unsuitedLookup).Some?
    ensures BestOfFives(combos, flushLookup, unsuitedLookup).Some? ==>
      var best := BestOfFives(combos, flushLookup, unsuitedLookup).value;
      best <= MAX_HIGH_CARD
      && (forall j :: 0 <= j < |combos| ==> best <= Five(combos[j], flushLookup, unsuitedLookup).value)
      && (best == MAX_HIGH_CARD || exists j :: 0 <= j < |combos| && Five(combos[j], flushLookup, unsuitedLookup) == Some(best))
  {
    if combos != [] {
      var init := combos[..|combos| - 1];
      BestOfFivesIsMinimum(init, flushLookup, unsuitedLookup);
      forall j | 0 <= j < |init| ensures init[j] == combos[j] {
      }
    }
  }

  /** Once a lookup has panicked, later combinations change nothing. */
  lemma {:induction false} BestOfFivesStaysNone(combos: seq<seq<Card>>, i: nat, flushLookup: Table, unsuitedLookup: Table)
    requires i <= |combos| && BestOfFives(combos[..i], flushLookup, unsuitedLookup).None?
    ensures BestOfFives(combos, flushLookup, unsuitedLookup).None?
    decreases |combos| - i
  {
    if i < |combos| {
      assert combos[..i + 1][..i] == combos[..i];
      BestOfFivesStaysNone(combos, i + 1, flushLookup, unsuitedLookup);
    } else {
      assert combos[..i] == combos;
    }
  }

  /** `_six`: the minimum rank over every five-card combination. */
  method Six(cards: seq<Card>, flushLookup: Table, unsuitedLookup: Table) returns (r: Option<int>)
    ensures r == BestOfFives(Combinations(cards, 5), flushLookup, unsuitedLookup)
  {
    var combos := Combinations(cards, 5);
    var minimum := MAX_HIGH_CARD;
    for i := 0 to |combos|
      invariant BestOfFives(combos[..i], flushLookup, unsuitedLookup) == Some(minimum)
    {
      assert combos[..i + 1][..i] == combos[..i];
      var score := Five(combos[i], flushLookup, unsuitedLookup);
      if score.None? {
        BestOfFivesStaysNone(combos, i + 1, flushLookup, unsuitedLookup);
        return None;
      }
      if score.value < minimum {
        minimum := score.value;
      }
    }
    assert combos[..|combos|] == combos;
    r := Some(minimum);
  }

  /** `_seven` delegates to `_six`. */
  method Seven(cards: seq<Card>, flushLookup: Table, unsuitedLookup: Table) returns (r: Option<int>)
    ensures r == BestOfFives(Combinations(cards, 5), flushLookup, unsuitedLookup)
  {
    r := Six(cards, flushLookup, unsuitedLookup);
  }

  /** The integers of the hand, then of the board. */
  function AllCards(hand: seq<HeldCard>, board: seq<HeldCard>): (cards: seq<Card>)
    ensures |cards| == |hand| + |board|
    ensures forall i :: 0 <= i < |hand| ==> cards[i] == hand[i].card
    ensures forall i :: 0 <= i < |board| ==> cards[|hand| + i] == board[i].card
  {
    seq(|hand|, i requires 0 <= i < |hand| => hand[i].card) + seq(|board|, i requires 0 <= i < |board| => board[i].card)
  }

  /** `evaluate`: hand sizes 5, 6 and 7 go to `_five`, `_six` and `_seven`;
      any other size is missing from `hand_size_map`. */
  method Evaluate(hand: seq<HeldCard>, board: seq<HeldCard>, flushLookup: Table, unsuitedLookup: Table)
    returns (r: Option<int>)
    ensures |hand| + |board| !in {5, 6, 7} ==> r == None
    ensures |hand| + |board| == 5 ==> r == Five(AllCards(hand, board), flushLookup, unsuitedLookup)
    ensures |hand| + |board| in {6, 7} ==> r.Some? ==> r.value <= MAX_HIGH_CARD
    ensures |hand| + |board| in {6, 7} ==> r.Some? ==>
      forall c :: c in Combinations(AllCards(hand, board), 5) ==>
        (Five(c, flushLookup, unsuitedLookup).Some? && r.value <= Five(c, flushLookup, unsuitedLookup).value)
  {
    var allCards := AllCards(hand, board);
    if |allCards| == 5 {
      r := Five(allCards, flushLookup, unsuitedLookup);
    } else if |allCards| == 6 || |allCards| == 7 {
      if |allCards| == 6 {
        r := Six(allCards, flushLookup, unsuitedLookup);
      } else {
        r := Seven(allCards, flushLookup, unsuitedLookup);
      }
      var combos := Combinations(allCards, 5);
      BestOfFivesIsMinimum(combos, flushLookup, unsuitedLookup);
    } else {
      r := None;
    }
  }

  /** On exactly five cards `_six` agrees with `_five` whenever `_five`
      finds a rank no worse than MAX_HIGH_CARD. */
  lemma SixOfFive(cards: seq<Card>, flushLookup: Table, unsuitedLookup: Table)
    requires |cards| == 5
    requires Five(cards, flushLookup, unsuitedLookup).Some? ==> Five(cards, flushLookup, unsuitedLookup).value <= MAX_HIGH_CARD
    ensures BestOfFives(Combinations(cards, 5), flushLookup, unsuitedLookup) == Five(cards, flushLookup, unsuitedLookup)
  {
    OnlyCombination(cards, 5);
    assert [cards][..0] == [];
  }

  /** k elements have one k-element combination: themselves. */
  lemma {:induction false} OnlyCombination<T>(s: seq<T>, k: nat)
    requires |s| == k
    ensures Combinations(s, k) == [s]
  {
    if k > 0 {
      OnlyCombination(s[1..], k - 1);
      assert Combinations(s[1..], k) == [];
      assert [s[0]] + s[1..] == s;
    }
  }
}
