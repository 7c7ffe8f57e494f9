/** The integer encoding of a playing card used by the woker evaluator
    (woker/src/main.rs: `card` and the two character maps built by `init`).

    A card is an i64 whose bit fields are

        bits 16..28  one-hot "bitrank"  (1 << rank)
        bits 12..15  one-hot suit       (s = 1, h = 2, d = 4, c = 8)
        bits  8..11  rank index         (0 = '2' .. 12 = 'A')
        bits  0..7   rank prime         (PRIMES[rank])

    Every value involved is non-negative and below 2^29, so the i64 is
    modelled as a bv64 and the bit operations are the machine ones. */
module PokerCard {
  import opened Wrappers

  type Card = bv64

  /** `PRIMES`, the i64 table indexed by rank. */
  const PRIMES: seq<bv64> := [2, 3, 5, 7, 11, 13, 17, 19, 23, 29, 31, 37, 41]

  const RANK_CHARS: string := "23456789TJQKA"
  const SUIT_CHARS: string := "shdc"

  /** The rank prime as a mathematical integer (for products). */
  function PrimeOf(i: nat): (p: nat)
    requires i < 13
    ensures 2 <= p <= 41
  {
    if i == 0 then 2 else if i == 1 then 3 else if i == 2 then 5
    else if i == 3 then 7 else if i == 4 then 11 else if i == 5 then 13
    else if i == 6 then 17 else if i == 7 then 19 else if i == 8 then 23
    else if i == 9 then 29 else if i == 10 then 31 else if i == 11 then 37
    else 41
  }

  /** `PrimeOf` agrees with the `PRIMES` table. */
  lemma PrimeOfTable(i: nat)
    requires i < 13
    ensures PrimeOf(i) == PRIMES[i] as nat
  {
  }

  /** A suit value as stored in the suit nibble. */
  predicate IsSuit(s: bv64) {
    s == 1 || s == 2 || s == 4 || s == 8
  }

  /** The rank map of `init`: the i-th character of "23456789TJQKA" has rank i.
      A character outside the map has no rank (the Rust index panics). */
  function RankOfChar(c: char): (r: Option<bv64>)
    ensures r.Some? <==> c in RANK_CHARS
    ensures r.Some? ==> r.value < 13 && RANK_CHARS[r.value] == c
  {
    match c
    case '2' => Some(0)
    case '3' => Some(1)
    case '4' => Some(2)
    case '5' => Some(3)
    case '6' => Some(4)
    case '7' => Some(5)
    case '8' => Some(6)
    case '9' => Some(7)
    case 'T' => Some(8)
    case 'J' => Some(9)
    case 'Q' => Some(10)
    case 'K' => Some(11)
    case 'A' => Some(12)
    case _ => None
  }

  /** The suit map of `init`: s -> 1, h -> 2, d -> 4, c -> 8, that is, the
      j-th character of "shdc" maps to 1 << j. */
  function SuitOfChar(c: char): (s: Option<bv64>)
    ensures s.Some? <==> c in SUIT_CHARS
    ensures s.Some? ==> IsSuit(s.value)
    ensures s.Some? ==> exists j: bv64 :: j < 4 && SUIT_CHARS[j] == c && s.value == 1 << j
  {
    match c
    case 's' => assert SUIT_CHARS[0 as bv64] == 's' && 1 == (1 as bv64) << (0 as bv64); Some(1)
    case 'h' => assert SUIT_CHARS[1 as bv64] == 'h' && 2 == (1 as bv64) << (1 as bv64); Some(2)
    case 'd' => assert SUIT_CHARS[2 as bv64] == 'd' && 4 == (1 as bv64) << (2 as bv64); Some(4)
    case 'c' => assert SUIT_CHARS[3 as bv64] == 'c' && 8 == (1 as bv64) << (3 as bv64); Some(8)
    case _ => None
  }

  /** The packed integer for a rank index and a suit value. */
  function Encode(rank: bv64, suit: bv64): Card
    requires rank < 13 && IsSuit(suit)
  {
    ((1 << rank) << 16) | (suit << 12) | (rank << 8) | PRIMES[rank]
  }

  // The four fields of a packed card.
  function Prime(c: Card): bv64 { c & 0xFF }
  function Rank(c: Card): bv64 { (c >> 8) & 0xF }
  function Suit(c: Card): bv64 { (c >> 12) & 0xF }
  function BitRank(c: Card): bv64 { c >> 16 }

  /** A card produced by `card`. */
  predicate ValidCard(c: Card) {
    Rank(c) < 13 && IsSuit(Suit(c)) && c == Encode(Rank(c), Suit(c))
  }

  /** `card((rank_char, suit_char))`: None when either character is not in its map. */
  function CardOf(rankChar: char, suitChar: char): (c: Option<Card>)
    ensures c.Some? <==> rankChar in RANK_CHARS && suitChar in SUIT_CHARS
    ensures c.Some? ==> ValidCard(c.value)
    ensures c.Some? ==> RANK_CHARS[Rank(c.value)] == rankChar
    ensures c.Some? ==> exists j: bv64 :: j < 4 && SUIT_CHARS[j] == suitChar && Suit(c.value) == 1 << j
  {
    match RankOfChar(rankChar)
    case None => None
    case Some(r) =>
      match SuitOfChar(suitChar)
      case None => None
      case Some(s) =>
        EncodeFields(r, s);
        Some(Encode(r, s))
  }

  /** The fields are disjoint: each one reads back what was packed. */
  lemma EncodeFields(rank: bv64, suit: bv64)
    requires rank < 13 && IsSuit(suit)
    ensures Prime(Encode(rank, suit)) == PRIMES[rank]
    ensures Rank(Encode(rank, suit)) == rank
    ensures Suit(Encode(rank, suit)) == suit
    ensures BitRank(Encode(rank, suit)) == 1 << rank
    ensures ValidCard(Encode(rank, suit))
  {
    assert PRIMES[rank] < 256;
  }

  /** Encoding is injective: the card determines its rank and suit. */
  lemma EncodeInjective(r1: bv64, s1: bv64, r2: bv64, s2: bv64)
    requires r1 < 13 && IsSuit(s1) && r2 < 13 && IsSuit(s2)
    ensures Encode(r1, s1) == Encode(r2, s2) <==> r1 == r2 && s1 == s2
  {
    EncodeFields(r1, s1);
    EncodeFields(r2, s2);
  }
}
