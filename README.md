# wames in Dafny

A verified model of the core of *wames*, a collection of small terminal
games written in Rust:

- **woker** — a poker hand evaluator (a port of the "deuces" algorithm).
  Every card is packed into an integer holding its rank bit, suit nibble,
  rank and rank prime (`card`). `init` builds two lookup tables from
  prime-product keys to hand ranks 1..7462:
  - `flush_lookup`, for five suited cards;
  - `unsuited_lookup`, for everything else: straights, high cards and the
    multiples blocks.

  `evaluate` looks five cards up. For six or seven cards it takes the best
  five-card combination. `get_rank_class` maps a rank to one of nine hand
  classes.
- **wungeons2** — a dungeon word game built on an entity-component store.
  Entities carry components, and the state indexes entity ids by lists of
  component kinds. The model covers:
  - positions and rectangles;
  - effects folded into modifiers;
  - the starting letter bag and its points;
  - the riddle list parser;
  - the dialogue system, which lays a dialogue's text and options out as new
    entities;
  - colour darkening;
  - Bresenham lines.
- **wungeons** — the earlier version of the same engine: components, entity
  creation and registration, and Bresenham lines.
- **wetris** — a falling-blocks game. The model covers:
  - rotations and the shape table;
  - the collision windows that decide whether a move or rotation is
    granted;
  - gravity;
  - locking a piece into the 20×10 board, which the model holds as a
    two-dimensional array.
- **wurdle** — a word-guessing game. The model covers:
  - letter marking (green, yellow, plain) and the keyboard colours;
  - the not-a-word check and the game-over rule;
  - the statistics record, with its `won`, `lost`, `read` and `save`
    operations and the text format of the statistics file.

Pure code is modelled by datatypes, functions and lemmas. Code that
changes state step by step is modelled by methods with loops and
invariants, each proved against a specification function:
- the table-building loops of `init`;
- the entity store and dialogue placement;
- the wetris game loop;
- the wurdle statistics record.

Where the Rust code panics, the model returns `None` or an `ok` flag that
is `false` exactly where the source panics. Integers are unbounded
mathematical integers except where a width matters:
- the 64-bit card words are `bv64`;
- colours are `bv8`;
- `usize` parsing checks `usize::MAX`.

## Model

| member | source | states |
|---|---|---|
| BitSequence.NextBitSequence | woker/src/main.rs:528-531 | `get_lexographically_next_bit_sequence` on a 64-bit word: the lowest run of set bits is carried one place up and the rest refilled at the bottom. The f64 division of two powers of two is exact and is taken as integer division. For 0, the NaN quotient casts to 0. NextOfLowestFlush, NextGrows and FlushEnumeration.SuccVal state what it gives. |
| BitSequence.NextOfLowestFlush | woker/src/main.rs:545-547 | The successor of the lowest five-bit pattern 0b11111 is 0b101111, the unit test of the generator. |
| BitSequence.NextGrows | woker/src/main.rs:528-537 | On every non-zero 13-bit pattern the next lexicographic bit pattern is strictly larger and below 2^14, so the generator loop moves forward. |
| Combinatorics.Without | woker/src/main.rs:590 | `retain(k != x)` keeps exactly the elements other than x, in their order. |
| Combinatorics.WithoutDistinct | woker/src/main.rs:590 | Removing an element keeps a list without repeats free of repeats. |
| Combinatorics.WithoutLength | woker/src/main.rs:590 | Removing an element that occurs once shortens the list by exactly one. |
| Combinatorics.WithoutAbsent | woker/src/main.rs:637-638 | Removing an element that is not in the list changes nothing. |
| Combinatorics.WithoutDescending | woker/src/main.rs:617 | Removing an element keeps a descending rank list descending. |
| Combinatorics.CombinationsShape | woker/src/main.rs:381 | Every k-combination has exactly k elements, each taken from the input. |
| Combinatorics.CombinationsCount | woker/src/main.rs:381 | There are C(n, k) combinations of n elements. |
| Combinatorics.CombinationsPairs | woker/src/main.rs:620 | There are n(n-1)/2 two-element combinations. |
| Combinatorics.CombinationsTriples | woker/src/main.rs:654 | There are n(n-1)(n-2)/6 three-element combinations. |
| Combinatorics.CombinationsDescending | woker/src/main.rs:632 | Combinations of a strictly descending list are strictly descending and pairwise different. |
| Combinatorics.FlattenLength | woker/src/main.rs:583-597 | Rows of equal length n flatten to (number of rows) × n keys. |
| Combinatorics.FlattenDistinct | woker/src/main.rs:583-597 | Rows without repeats and without common keys flatten to a list without repeats. |
| PokerCard.PrimeOfTable | woker/src/main.rs:7 | The rank prime of rank i is the i-th entry of `PRIMES`, 2 to 41. |
| PokerCard.RankOfChar | woker/src/main.rs:94-95 | A rank character has a rank exactly when it is one of "23456789TJQKA", and then its index there. |
| PokerCard.SuitOfChar | woker/src/main.rs:96-97 | A suit character has a suit exactly when it is one of s, h, d and c, and then 1, 2, 4 or 8 by its place. |
| PokerCard.CardOf | woker/src/main.rs:306-327 | `card` succeeds exactly when both characters are in their maps, and then builds a well-formed card whose rank and suit fields give the characters back. |
| PokerCard.Encode | woker/src/main.rs:320-326 | The packing in `card`: the one-hot rank bit from bit 16, the suit from bit 12, the rank index from bit 8 and the rank prime in the low byte. It takes a rank below 13 and a suit of 1, 2, 4 or 8, which is all `card`'s two map lookups can give (PokerCard.CardOf). EncodeFields and EncodeInjective read it back. |
| PokerCard.EncodeFields | woker/src/main.rs:306-327 | Each field of a packed card reads back what was packed: the prime, the rank, the suit and the one-hot rank bit. |
| PokerCard.EncodeInjective | woker/src/main.rs:306-327 | Two packed cards are equal exactly when their ranks and suits are. |
| PrimeFactors.Euclid | woker/src/main.rs:7 | Euclid's lemma for a prime p: if p divides a·b and 0 < a < p, then p divides b. This is the arithmetic behind unique prime-product keys. |
| PrimeFactors.PrimeDividesFactor | woker/src/main.rs:7 | A prime that divides a product divides one of its factors. |
| PrimeFactors.PrimeDividesPrime | woker/src/main.rs:7 | A prime that divides another prime is that prime. |
| PrimeProducts.RankbitsProduct | woker/src/main.rs:404-434 | The product of the rank primes of the set bits below n, and 1 when none is set. It is never below 1. PrimeProductFromRankbits computes it for the 13 rank bits, and RankbitsAsRankProduct and RankbitsKeyInjective characterise it. |
| PrimeProducts.PrimeProductFromRankbits | woker/src/main.rs:404-434 | The loop multiplies in the prime of every set bit among the 13 rank bits. |
| PrimeProducts.HandProduct | woker/src/main.rs:436-447 | The product of the low bytes of every card of the slice, and 1 for no card. PrimeProductFromHand computes it, and HandProductOfCards and RankProductInjective characterise it. |
| PrimeProducts.PrimeProductFromHand | woker/src/main.rs:436-447 | The loop multiplies in the low byte of every card. |
| PrimeProducts.Ranks | woker/src/main.rs:436-447 | The ranks of well-formed cards are all below 13, one per card and in order. |
| PrimeProducts.HandProductOfCards | woker/src/main.rs:436-447 | For cards built by `card`, the hand product is the product of their rank primes. |
| PrimeProducts.CardPrime | woker/src/main.rs:306-327 | The low byte of a built card is the prime of its rank. |
| PrimeProducts.RankPrimeIsPrime | woker/src/main.rs:7 | Every entry of `PRIMES` is prime. |
| PrimeProducts.RankPrimesIncrease | woker/src/main.rs:7 | The rank primes increase strictly with the rank. |
| PrimeProducts.PrimeInProduct | woker/src/main.rs:7 | A rank prime divides a product of rank primes only if that rank occurs. |
| PrimeProducts.RankProductRemove | woker/src/main.rs:436-447 | Taking one rank out of a product divides exactly its prime out. |
| PrimeProducts.SameProductSameRanks | woker/src/main.rs:436-447 | Equal rank products come from equal multisets of ranks. |
| PrimeProducts.SameRanksSameProduct | woker/src/main.rs:436-447 | Reordering the ranks does not change the product. |
| PrimeProducts.RankProductInjective | woker/src/main.rs:436-447 | Two rank lists have the same product if and only if they hold the same ranks with the same multiplicities, so a key identifies a hand up to order. |
| PrimeProducts.BitRanks | woker/src/main.rs:404-434 | Lists exactly the ranks whose bits are set among the low n bits. |
| PrimeProducts.BitRanksIncreasing | woker/src/main.rs:404-434 | The set ranks are listed in increasing order, each once. |
| PrimeProducts.RankbitsAsRankProduct | woker/src/main.rs:404-434 | The rank-bits product is the product of the primes of exactly the set ranks. |
| PrimeProducts.SameLowBits | woker/src/main.rs:404-434 | Two 13-bit patterns with the same set bits are equal. |
| PrimeProducts.RankbitsKeyInjective | woker/src/main.rs:404-434 | Two 13-bit patterns have the same product if and only if they are equal, so flush and straight keys never collide. |
| Evaluator.Five | woker/src/main.rs:348-372 | `_five`. It is `None` for fewer than five cards, where the indexing panics. A hand whose five suit nibbles AND to non-zero is looked up in `flush_lookup` under the rank-bits product of the OR of the rank bits. Any other hand is looked up in `unsuited_lookup` under the product of the cards' low bytes. A missing key gives `None`, where `table[&key]` panics. FiveLooksUp, FiveWithin and FiveUnsuitedOrderFree characterise it. |
| Evaluator.Lookup | woker/src/main.rs:361-371 | `table[&key]` succeeds exactly when the key is present. |
| Evaluator.FlushTestIffSuited | woker/src/main.rs:361 | The AND of the five suit nibbles is non-zero if and only if all five cards share a suit. |
| Evaluator.RankFieldOfCards | woker/src/main.rs:362 | The OR of the cards shifted right by 16 is the OR of their one-hot rank bits. |
| Evaluator.FiveLooksUp | woker/src/main.rs:348-372 | A suited hand is looked up in `flush_lookup` under the rank-bits product of its ranks. Any other hand is looked up in `unsuited_lookup` under the product of its rank primes. |
| Evaluator.FiveWithin | woker/src/main.rs:348-372 | When every rank in both tables lies in lo..hi, any rank `_five` finds lies in lo..hi. With the built tables (FlushLookupWithin, UnsuitedLookupWithin) that is 1..7462. |
| Evaluator.FiveUnsuitedOrderFree | woker/src/main.rs:348-372 | Two unsuited hands with the same multiset of ranks get the same result, whatever their order. |
| Evaluator.BestOfFivesIsMinimum | woker/src/main.rs:374-394 | The fold over the combinations panics exactly when one of their lookups does. Otherwise it returns the least rank among them, capped at MAX_HIGH_CARD. |
| Evaluator.BestOfFivesStaysNone | woker/src/main.rs:374-394 | Once a lookup has panicked, later combinations change nothing. |
| Evaluator.Six | woker/src/main.rs:374-394 | The loop of `_six` computes the fold over every five-card combination. |
| Evaluator.Seven | woker/src/main.rs:396-402 | `_seven` gives what `_six` gives. |
| Evaluator.AllCards | woker/src/main.rs:329-346 | The cards of the hand, then the cards of the board, in order. |
| Evaluator.Evaluate | woker/src/main.rs:329-346 | Hand sizes other than 5, 6 and 7 are not in `hand_size_map`. For 5 cards the result is the single lookup. For 6 or 7 cards a result is at most MAX_HIGH_CARD and no worse than any combination's rank. |
| Evaluator.SixOfFive | woker/src/main.rs:374-394 | On exactly five cards whose rank is in range, `_six` agrees with `_five`. |
| Evaluator.OnlyCombination | woker/src/main.rs:381 | k elements have exactly one k-combination: themselves. |
| LookupTables.InsertRanksAt | woker/src/main.rs:507-520 | When no key repeats, the j-th inserted key ends up with rank start + j. |
| LookupTables.InsertRanksKeep | woker/src/main.rs:507-520 | A key that is not inserted keeps its old rank. |
| LookupTables.InsertRanksHas | woker/src/main.rs:507-520 | Every old key and every inserted key is in the table afterwards. |
| LookupTables.RankbitsKeys | woker/src/main.rs:507-520 | The keys of a pattern list are the rank-bits products of the patterns, one per pattern. |
| LookupTables.InsertPatternRanks | woker/src/main.rs:507-520 | The insertion loop of `flushes` and `straight_and_highcards` inserts each pattern's product with consecutive ranks from `start`, and returns the next rank. |
| LookupTables.UnreversedStep | woker/src/main.rs:473-497 | Each generator step appends the generated pattern, unless it is one of the ten straight flushes. |
| LookupTables.KeptNotStraight | woker/src/main.rs:473-497 | Filtering a run of patterns as the generator loop does keeps no straight flush, and keeps at most one pattern per iteration. |
| LookupTables.KeptKeeps | woker/src/main.rs:473-497 | The filter keeps every pattern of the run that is not a straight flush. |
| LookupTables.Reverse | woker/src/main.rs:501-502 | `reverse` puts element i at position n-1-i. |
| LookupTables.FlushPatternsNotStraight | woker/src/main.rs:473-502 | After any number of generator iterations, the reversed `flushes` vector holds no straight flush and at most one pattern per iteration. |
| LookupTables.GenerateFlushPatterns | woker/src/main.rs:473-502 | The generator loop, then `reverse`, compute the flush pattern list. |
| LookupTables.NotStraightFlush | woker/src/main.rs:486-493 | The inner loop's flag is set if and only if the pattern differs from every straight flush. |
| LookupTables.InsertRanksWithin | woker/src/main.rs:507-520 | Inserting consecutive ranks that lie within lo..hi into a table whose ranks lie within lo..hi keeps every rank within lo..hi. |
| LookupTables.StraightAndHighcards | woker/src/main.rs:550-575 | Fills `unsuited_lookup` with the straights from MAX_FLUSH + 1 and the high cards from MAX_PAIR + 1. |
| LookupTables.FlushTable | woker/src/main.rs:449-526 | `flush_lookup` after `flushes`: the straight-flush keys ranked from 1, then the keys of the flush patterns ranked from MAX_FULL_HOUSE + 1, each in list order. LookupTables.Flushes computes it, and FlushOrder.StraightFlushRanked and FlushRanked give the ranks. |
| LookupTables.Flushes | woker/src/main.rs:449-526 | Fills `flush_lookup` with the straight flushes from rank 1 and the flushes from MAX_FULL_HOUSE + 1, then fills `unsuited_lookup` as `straight_and_highcards` does. |
| FlushEnumeration.Pascal | woker/src/main.rs:528-531 | The binomial table behind the colex index obeys Pascal's rule. |
| FlushEnumeration.SuccIndex | woker/src/main.rs:528-531 | The next five-subset in colexicographic order is again five ascending positions, and it has exactly one more five-subset before it. |
| FlushEnumeration.SuccVal | woker/src/main.rs:528-531 | On the pattern of five ranks below the top rank, the bit trick of `get_lexographically_next_bit_sequence` gives the pattern of the next five-subset in colexicographic order. |
| FlushEnumeration.WithinThirteen | woker/src/main.rs:478 | A five-subset with fewer than C(13, 5) = 1287 five-subsets before it lies within the thirteen ranks. |
| FlushEnumeration.Walk | woker/src/main.rs:474-480 | The pattern of the n-th iteration, for every iteration of the loop, is the set of five ranks with exactly n + 1 five-subsets before it in colexicographic order. |
| FlushEnumeration.GeneratedWithin | woker/src/main.rs:474-480 | Every pattern the loop generates is a non-zero 13-bit pattern. |
| FlushEnumeration.ColexInjective | woker/src/main.rs:474-480 | Two five-subsets with the same colex index are the same. |
| FlushEnumeration.HitBy | woker/src/main.rs:474-480 | The five-subset with i + 1 five-subsets before it is the pattern of iteration i. |
| FlushEnumeration.PastLast | woker/src/main.rs:478-482 | The successor of the last five-subset of the thirteen ranks leaves the 13 bits. |
| FlushEnumeration.Overflow | woker/src/main.rs:478-482 | One step past the last iteration, the generator's pattern has left the 13 bits. |
| FlushEnumeration.GeneratedNext | woker/src/main.rs:474-482 | Each iteration's pattern is the successor of the one before, the first being the successor of 0b11111. |
| FlushEnumeration.Repeats | woker/src/main.rs:474-482 | A sequence in which each term is a fixed function of the one before repeats from any two equal terms on. |
| FlushEnumeration.NoRepeat | woker/src/main.rs:474-482 | Such a sequence that stays within 13 bits until a term that leaves them has no repeated term before that one. |
| FlushEnumeration.NeverStart | woker/src/main.rs:474-482 | Nor does the value it starts from come back before that term. |
| FlushEnumeration.GeneratedChain | woker/src/main.rs:474-482 | The generator's patterns form such a sequence, leaving the 13 bits exactly one step after the loop ends. |
| FlushEnumeration.GeneratedDistinct | woker/src/main.rs:474-482 | No two iterations of the loop see the same pattern. |
| FlushEnumeration.NeverLowest | woker/src/main.rs:474-482 | No iteration sees 0b11111, the pattern the generator starts from. |
| FlushEnumeration.GeneratedInjective | woker/src/main.rs:474-482 | The loop's patterns are pairwise different. |
| FlushEnumeration.GeneratedEnumerates | woker/src/main.rs:474-482 | Every five-of-thirteen rank pattern other than 0b11111 is met, at the iteration its colex index names. |
| FlushEnumeration.EnumeratedAt | woker/src/main.rs:474-482 | Any run of patterns that meets every five-subset at its colex index has that subset's pattern at that step. |
| FlushEnumeration.EnumeratesStraights | woker/src/main.rs:458-497 | Such a run meets the nine straight flushes other than 0b11111 at the iterations their colex indexes give. |
| FlushEnumeration.KeptLength | woker/src/main.rs:485-497 | Each iteration either keeps its pattern or drops a straight flush. |
| FlushEnumeration.KeptDistinct | woker/src/main.rs:485-497 | When the run repeats no pattern, the kept list has no repeat. |
| FlushEnumeration.MetCount | woker/src/main.rs:485-497 | When the run repeats no pattern, the number of dropped iterations is the number of different straight flushes met. |
| FlushEnumeration.KeptWithin | woker/src/main.rs:485-497 | When every pattern of the run is a 13-bit pattern, so is every kept one. |
| FlushEnumeration.MetWithin | woker/src/main.rs:485-497 | When the run never meets a given pattern, the straight flushes dropped are straight flushes other than it. |
| FlushEnumeration.MetKeeps | woker/src/main.rs:485-497 | A straight flush met at some iteration counts as met at every later one. |
| FlushEnumeration.NineMet | woker/src/main.rs:458-497 | A run meeting the straight flushes at those iterations drops each of the nine straight flushes other than 0b11111. |
| FlushEnumeration.OnlyNineMet | woker/src/main.rs:458-497 | A run that never meets 0b11111 drops no other pattern than those nine. |
| FlushEnumeration.NineStraights | woker/src/main.rs:458-469 | The nine straight flushes other than 0b11111 are nine different patterns. |
| FlushEnumeration.KeptCount | woker/src/main.rs:476-497 | A run with these properties keeps exactly 1277 of its 1286 patterns, as the comment on the loop bound says. |
| FlushEnumeration.UnreversedCount | woker/src/main.rs:476-497 | The generator keeps exactly 1277 patterns. |
| FlushEnumeration.UnreversedShape | woker/src/main.rs:473-497 | Before `reverse`, the list holds 1277 different 13-bit patterns, none of them a straight flush. |
| FlushEnumeration.ReverseShape | woker/src/main.rs:502 | Reversing keeps a list free of repeats, within 13 bits and free of straight flushes. |
| FlushEnumeration.FlushPatternsShape | woker/src/main.rs:473-502 | The list `flushes` ranks holds 1277 different 13-bit patterns, none of them a straight flush. So the rank lemmas of `flushes` and `straight_and_highcards` apply to it. |
| FlushOrder.StraightFlushPatterns | woker/src/main.rs:458-469 | There are ten straight-flush patterns, as many as MAX_STRAIGHT_FLUSH and as MAX_STRAIGHT − MAX_FLUSH. They are distinct 13-bit patterns. |
| FlushOrder.RankbitsKeysDistinct | woker/src/main.rs:507-520 | Distinct patterns give distinct keys. |
| FlushOrder.StraightFlushKeyApart | woker/src/main.rs:507-520 | No straight-flush key is the key of a generated flush pattern. Stated for any flush list of different 13-bit patterns without straight flushes, which the generated list is (FlushEnumeration.FlushPatternsShape). |
| FlushOrder.StraightFlushRanked | woker/src/main.rs:508-513 | In `flush_lookup` the j-th straight flush has rank j + 1. Stated for any flush list of different 13-bit patterns without straight flushes, which the generated list is (FlushEnumeration.FlushPatternsShape); Tables.BuiltStraightFlush applies it to the built table. |
| FlushOrder.FlushRanked | woker/src/main.rs:516-521 | In `flush_lookup` the j-th flush pattern has rank MAX_FULL_HOUSE + 1 + j. Stated for any flush list of different 13-bit patterns without straight flushes, which the generated list is (FlushEnumeration.FlushPatternsShape); Tables.BuiltFlush applies it to the built table. |
| FlushOrder.StraightRanked | woker/src/main.rs:560-566 | In `unsuited_lookup` the j-th straight has rank MAX_FLUSH + 1 + j. Stated for any flush list of different 13-bit patterns without straight flushes, which the generated list is (FlushEnumeration.FlushPatternsShape); Tables.BuiltStraight applies it to the built table. |
| FlushOrder.HighCardRanked | woker/src/main.rs:568-574 | In `unsuited_lookup` the j-th high card has rank MAX_PAIR + 1 + j. Stated for any flush list of different 13-bit patterns without straight flushes, which the generated list is (FlushEnumeration.FlushPatternsShape); Tables.BuiltHighCard applies it to the built table. |
| Multiples.BackwardsRanks | woker/src/main.rs:581 | `backwards_ranks` holds the 13 ranks, strictly descending and without repeats. |
| Multiples.Kickers | woker/src/main.rs:588-590 | Removing a rank from valid ranks leaves valid ranks. |
| Multiples.RankCombinations | woker/src/main.rs:620 | Every combination of ranks has k valid ranks. |
| Multiples.RankPairs | woker/src/main.rs:632 | Every pair from `backwards_ranks` has two valid ranks. |
| Multiples.InsertRow | woker/src/main.rs:591-595 | The inner insertion loop continues the table built from the earlier keys. It inserts the row's keys with the next consecutive ranks. |
| Multiples.FourOfAKind | woker/src/main.rs:583-597 | The four-of-a-kind block inserts its keys in order, with ranks from MAX_STRAIGHT_FLUSH + 1. |
| Multiples.FullHouse | woker/src/main.rs:598-611 | The full-house block inserts its keys in order, with ranks from MAX_FOUR_OF_A_KIND + 1. |
| Multiples.ThreeOfAKind | woker/src/main.rs:612-631 | The three-of-a-kind block inserts its keys in order, with ranks from MAX_STRAIGHT + 1. |
| Multiples.TwoPair | woker/src/main.rs:632-649 | The two-pair block inserts its keys in order, with ranks from MAX_THREE_OF_A_KIND + 1. |
| Multiples.Pair | woker/src/main.rs:650-665 | The pair block inserts its keys in order, with ranks from MAX_TWO_PAIR + 1. |
| Multiples.MultiplesTable | woker/src/main.rs:577-666 | The unsuited table after the five blocks of `multiples` over the given ranks, in source order. Four of a kind is ranked from MAX_STRAIGHT_FLUSH + 1, full house from MAX_FOUR_OF_A_KIND + 1, trips from MAX_STRAIGHT + 1, two pair from MAX_THREE_OF_A_KIND + 1 and pairs from MAX_TWO_PAIR + 1. BuildMultiples computes it, and the MultiplesOrder *Ranked lemmas give the ranks. |
| Multiples.BuildMultiples | woker/src/main.rs:577-666 | `multiples` builds the five blocks, one after the other, over `backwards_ranks`. |
| MultiplesOrder.KickersOfFull | woker/src/main.rs:588-590 | Removing one of the thirteen ranks leaves twelve kickers. |
| MultiplesOrder.KickerPairsOfFull | woker/src/main.rs:620 | Twelve kickers give 66 kicker pairs. |
| MultiplesOrder.KickerTriplesOfFull | woker/src/main.rs:654 | Twelve kickers give 220 kicker triples. |
| MultiplesOrder.FourSize | woker/src/main.rs:583-597 | The four-of-a-kind block has exactly MAX_FOUR_OF_A_KIND − MAX_STRAIGHT_FLUSH keys (156). |
| MultiplesOrder.FullHouseSize | woker/src/main.rs:598-611 | The full-house block has exactly MAX_FULL_HOUSE − MAX_FOUR_OF_A_KIND keys (156). |
| MultiplesOrder.TripsSize | woker/src/main.rs:612-631 | The three-of-a-kind block has exactly MAX_THREE_OF_A_KIND − MAX_STRAIGHT keys (858). |
| MultiplesOrder.TwoPairSize | woker/src/main.rs:632-649 | The two-pair block has exactly MAX_TWO_PAIR − MAX_THREE_OF_A_KIND keys (858). |
| MultiplesOrder.PairSize | woker/src/main.rs:650-665 | The pair block has exactly MAX_PAIR − MAX_TWO_PAIR keys (2860). |
| MultiplesOrder.MultiplesWithin | woker/src/main.rs:577-666 | The five blocks give ranks MAX_STRAIGHT_FLUSH + 1..MAX_PAIR, so a table whose ranks lie in a range covering those keeps them in it. |
| MultiplesOrder.BlockShape | woker/src/main.rs:577-666 | If a hand's product is a key of a block, the hand has that block's shape: four of a kind, full house, trips, two pair or pair. |
| MultiplesOrder.RankbitsInNoBlock | woker/src/main.rs:577-666 | The key of any 13-bit rank pattern (a straight or high card) lies in none of the five blocks. |
| MultiplesOrder.FourElsewhere | woker/src/main.rs:577-666 | A four-of-a-kind key is a key of no later block. |
| MultiplesOrder.FullHouseElsewhere | woker/src/main.rs:577-666 | A full-house key is a key of no later block. |
| MultiplesOrder.TripsElsewhere | woker/src/main.rs:577-666 | A three-of-a-kind key is a key of no later block. |
| MultiplesOrder.TwoPairElsewhere | woker/src/main.rs:577-666 | A two-pair key is not a pair key. |
| MultiplesOrder.FourRanked | woker/src/main.rs:583-597 | After `multiples`, the j-th four-of-a-kind key has rank MAX_STRAIGHT_FLUSH + 1 + j. |
| MultiplesOrder.FullHouseRanked | woker/src/main.rs:598-611 | After `multiples`, the j-th full-house key has rank MAX_FOUR_OF_A_KIND + 1 + j. |
| MultiplesOrder.TripsRanked | woker/src/main.rs:612-631 | After `multiples`, the j-th three-of-a-kind key has rank MAX_STRAIGHT + 1 + j. |
| MultiplesOrder.TwoPairRanked | woker/src/main.rs:632-649 | After `multiples`, the j-th two-pair key has rank MAX_THREE_OF_A_KIND + 1 + j. |
| MultiplesOrder.PairRanked | woker/src/main.rs:650-665 | After `multiples`, the j-th pair key has rank MAX_TWO_PAIR + 1 + j. |
| MultiplesOrder.RankbitsKept | woker/src/main.rs:577-666 | `multiples` leaves the rank of every straight and high-card key as `straight_and_highcards` set it. |
| MultiplesRanks.DistinctShape | woker/src/main.rs:568-574 | A rank list without repeats has no pair, trips or quads. |
| MultiplesRanks.FourHand | woker/src/main.rs:592 | A four-of-a-kind key is the product of the hand i,i,i,i,k, which has the four-of-a-kind shape. |
| MultiplesRanks.FullHouseHand | woker/src/main.rs:606 | A full-house key is the product of the hand i,i,i,p,p, which has the full-house shape. |
| MultiplesRanks.TripsHand | woker/src/main.rs:623-624 | A three-of-a-kind key is the product of the hand r,r,r,c1,c2, which has the three-of-a-kind shape. |
| MultiplesRanks.TwoPairHand | woker/src/main.rs:634-642 | A two-pair key is the product of the hand p1,p1,p2,p2,k, which has the two-pair shape. |
| MultiplesRanks.PairHand | woker/src/main.rs:657-661 | A pair key is the product of the hand p,p,k1,k2,k3, which has the pair shape. |
| MultiplesRanks.FourKeyInjective | woker/src/main.rs:583-597 | Two four-of-a-kind keys are equal exactly when the quad rank and the kicker are. |
| MultiplesRanks.FullHouseKeyInjective | woker/src/main.rs:598-611 | Two full-house keys are equal exactly when the trips rank and the pair rank are. |
| MultiplesRanks.TripsKeyInjective | woker/src/main.rs:612-631 | Two three-of-a-kind keys are equal exactly when the trips rank and both kickers are. |
| MultiplesRanks.TwoPairKeyInjective | woker/src/main.rs:632-649 | Two two-pair keys are equal exactly when both pair ranks and the kicker are. |
| MultiplesRanks.PairKeyInjective | woker/src/main.rs:650-665 | Two pair keys are equal exactly when the pair rank and the three kickers are. |
| MultiplesRanks.FourKeysDistinct | woker/src/main.rs:583-597 | The four-of-a-kind block inserts no key twice. |
| MultiplesRanks.FourKeyShape | woker/src/main.rs:583-597 | Every four-of-a-kind key is the product of a hand of four-of-a-kind shape. |
| MultiplesRanks.FullHouseKeysDistinct | woker/src/main.rs:598-611 | The full-house block inserts no key twice. |
| MultiplesRanks.FullHouseKeyShape | woker/src/main.rs:598-611 | Every full-house key is the product of a hand of full-house shape. |
| MultiplesRanks.TripsKeysDistinct | woker/src/main.rs:612-631 | The three-of-a-kind block inserts no key twice. |
| MultiplesRanks.TripsKeyShape | woker/src/main.rs:612-631 | Every three-of-a-kind key is the product of a hand of three-of-a-kind shape. |
| MultiplesRanks.TwoPairKeysDistinct | woker/src/main.rs:632-649 | The two-pair block inserts no key twice. |
| MultiplesRanks.TwoPairKeyShape | woker/src/main.rs:632-649 | Every two-pair key is the product of a hand of two-pair shape. |
| MultiplesRanks.PairKeysDistinct | woker/src/main.rs:650-665 | The pair block inserts no key twice. |
| MultiplesRanks.PairKeyShape | woker/src/main.rs:650-665 | Every pair key is the product of a hand of pair shape. |
| RankClass.ClassMax | woker/src/main.rs:111-125 | Each class 1..9 is the image of its MAX_* bound in `max_to_rank_class`. |
| RankClass.RankClassAsWritten | woker/src/main.rs:672-698 | As written: a class exactly for ranks up to MAX_HIGH_CARD, and a negative rank gets the Four of a Kind class. |
| RankClass.GetRankClass | woker/src/main.rs:672-698 | A class exactly for ranks in 0..=MAX_HIGH_CARD. The class lies in 1..9, and the rank is at most that class's bound and above the previous class's bound. |
| RankClass.NegativeRankMisclassified | woker/src/main.rs:677-680 | Rank −1 is classed 2 as written and rejected by the corrected classifier. |
| RankClass.AgreeOnRanks | woker/src/main.rs:672-698 | On every non-negative rank, the code as written and the corrected classifier agree. |
| RankClass.RankClassMonotone | woker/src/main.rs:672-698 | A worse (larger) rank never gets a smaller class. |
| RankClass.RankClassBoundaries | woker/src/main.rs:672-698 | Each MAX_* bound gets its own class and the next rank gets the next class. The rank after MAX_HIGH_CARD gets none. |
| RankClass.ClassesNamed | woker/src/main.rs:98-125 | Every class returned has a name in `rank_class_to_string`, and the named classes are exactly the values of `max_to_rank_class`. |
| Tables.UnsuitedTable | woker/src/main.rs:126-130 | `unsuited_lookup` as `init` leaves it: `straight_and_highcards` with the straight flushes as straights and the flush patterns as high cards, then `multiples`. BuildTables computes it, and UnsuitedStraight, UnsuitedHighCard and UnsuitedLookupWithin characterise it. |
| Tables.BuildTables | woker/src/main.rs:126-130 | `init` builds `flush_lookup` by `flushes` and `unsuited_lookup` by `flushes` then `multiples`. |
| Tables.UnsuitedStraight | woker/src/main.rs:126-130 | In the finished `unsuited_lookup`, the j-th straight keeps rank MAX_FLUSH + 1 + j. Stated for any flush list of different 13-bit patterns without straight flushes, which the generated list is (FlushEnumeration.FlushPatternsShape); Tables.BuiltStraight applies it to the built table. |
| Tables.UnsuitedHighCard | woker/src/main.rs:126-130 | In the finished `unsuited_lookup`, the j-th high card keeps rank MAX_PAIR + 1 + j. Stated for any flush list of different 13-bit patterns without straight flushes, which the generated list is (FlushEnumeration.FlushPatternsShape); Tables.BuiltHighCard applies it to the built table. |
| Tables.BuiltStraightFlush | woker/src/main.rs:126-130 | In the `flush_lookup` that `init` builds, the j-th straight flush has rank 1 + j. |
| Tables.BuiltFlush | woker/src/main.rs:126-130 | In the `flush_lookup` that `init` builds, each of the 1277 flush patterns, the j-th one, has rank MAX_FULL_HOUSE + 1 + j. The last one has MAX_FLUSH. |
| Tables.BuiltStraight | woker/src/main.rs:126-130 | In the `unsuited_lookup` that `init` builds, the j-th straight has rank MAX_FLUSH + 1 + j. |
| Tables.BuiltHighCard | woker/src/main.rs:126-130 | In the `unsuited_lookup` that `init` builds, each of the 1277 high-card patterns, the j-th one, has rank MAX_PAIR + 1 + j. The last one has MAX_HIGH_CARD. |
| Tables.FlushTableWithin | woker/src/main.rs:505-521 | `flushes` gives ranks from 1 up to MAX_FULL_HOUSE plus the number of flush patterns. |
| Tables.UnsuitedTableWithin | woker/src/main.rs:126-130 | `straight_and_highcards` and `multiples` give ranks from MAX_STRAIGHT_FLUSH + 1 up to MAX_PAIR plus the number of high-card patterns. |
| Tables.FlushLookupWithin | woker/src/main.rs:126-130 | Every rank in the built `flush_lookup` lies in 1..MAX_FLUSH. |
| Tables.UnsuitedLookupWithin | woker/src/main.rs:126-130 | Every rank in the built `unsuited_lookup` lies in MAX_STRAIGHT_FLUSH + 1..MAX_HIGH_CARD. |
| Tables.StraightFlushLooksUp | woker/src/main.rs:348-372 | Over any flush list of different 13-bit patterns without straight flushes, five valid cards of one suit whose rank bits are the j-th straight flush get rank 1 + j. |
| Tables.BuiltStraightFlushHand | woker/src/main.rs:126-130 | With the tables `init` builds, five valid cards of one suit whose rank bits are the j-th straight flush evaluate to 1 + j. |
| Tables.RoyalFlushLooksUp | woker/src/main.rs:348-372 | Over any such flush list and starting table, a suited hand whose rank bits are the first straight flush (the royal flush) gets rank 1. |
| Tables.RoyalFlushRanksFirst | woker/src/main.rs:126-130 | With the tables `init` builds, five valid cards of one suit ranked ace, king, queen, jack, ten evaluate to 1, the best rank. |
| Tables.SteelWheelRanksLast | woker/src/main.rs:126-130 | With the tables `init` builds, five valid cards of one suit ranked five, four, three, two, ace evaluate to MAX_STRAIGHT_FLUSH = 10, the worst straight flush. |
| Tables.RoyalBits | woker/src/main.rs:306-327 | The rank bits of ace, king, queen, jack and ten of one suit are the first entry of the straight-flush list, 0x1F00. |
| Tables.WheelBits | woker/src/main.rs:306-327 | The rank bits of five, four, three, two and ace of one suit are the last entry of the straight-flush list, 0x100F. |
| Colors.DarkenColorAsWritten | wungeons2/src/colors.rs:14-17 | As written: red is halved and alpha kept, but green and blue are both half of alpha. |
| Colors.DarkenColor | wungeons2/src/colors.rs:14-17 | Each colour channel is halved, rounding down, and alpha is kept. |
| Colors.DarkenBlackAsWritten | wungeons2/src/colors.rs:4 | Darkening opaque black as written gives (0, 127, 127, 255). The corrected version gives black. |
| Colors.DarkenAgreement | wungeons2/src/colors.rs:14-17 | The two versions agree exactly when green and blue halve to what alpha halves to. |
| Colors.DarkenRepeated | wungeons2/src/colors.rs:14-17 | Darkening any number of times never brightens a channel and keeps alpha. |
| Components.Add | wungeons2/src/components.rs:34-54 | Position addition is componentwise. |
| Components.TruncDiv | wungeons2/src/components.rs:73-78 | Rust's integer `/` rounds toward zero. |
| Components.Area | wungeons2/src/components.rs:69-71 | A rectangle with non-negative sides has non-negative area, and a degenerate one has area 0. |
| Components.Center | wungeons2/src/components.rs:73-78 | The centre lies within the rectangle on each axis, at half the side length rounded toward zero, for negative sizes too. |
| Components.Intersects | wungeons2/src/components.rs:112-124 | For non-negative sizes, two rectangles intersect exactly when some point lies in both closed boxes. |
| Components.IntersectsSymmetric | wungeons2/src/components.rs:112-124 | Intersection does not depend on argument order. |
| Components.ContainsPoint | wungeons2/src/components.rs:126-131 | `contains_point`: the point lies in the closed box from `pos1` to `pos1` plus the width and height. ContainsPointIsIntersects ties it to Intersects. |
| Components.ContainsPointIsIntersects | wungeons2/src/components.rs:126-131 | Containing a point is intersecting with a zero-size rectangle at that point. |
| Components.TouchingIntersects | wungeons2/src/components.rs:112-124 | Rectangles that only touch at an edge intersect. |
| Components.AddLaws | wungeons2/src/components.rs:17-54 | Position addition is commutative and associative, with `ZERO` as its unit. |
| Components.DirectionSteps | wungeons2/src/components.rs:20-32 | The four directions are the unit axis steps and the four diagonals are the unit diagonal steps, each listed once. |
| Components.GetDefaultComponent | wungeons2/src/components.rs:170-199 | The default is of the same kind, with its payload cleared. |
| Components.DefaultComponentKinds | wungeons2/src/components.rs:170-199 | Two components have the same default exactly when they are of the same kind. The default is idempotent and fixes exactly the defaults. |
| Entities.KindSeq | wungeons2/src/entity.rs:14-19 | The kinds of the components, in order. |
| Entities.LastIndex | wungeons2/src/entity.rs:14-19 | `HashMap::from_iter` indexes every distinct kind, at the position of its last occurrence. |
| Entities.LastIndexSnoc | wungeons2/src/entity.rs:14-19 | Inserting one more `(kind, position)` pair keeps every kind indexed at its last position. |
| Entities.KindsIndexed | wungeons2/src/entity.rs:14-19 | The index has a key for exactly the kinds of the components. |
| Entities.NewEntity | wungeons2/src/entity.rs:8-21 | The entity takes the counter's value as its id, and the counter is returned incremented by one. The entity keeps the components in order and is well indexed. |
| Entities.ContainsComponent | wungeons2/src/entity.rs:43-45 | For a well-indexed entity, true exactly when some component is of the given kind. |
| Entities.GetComponent | wungeons2/src/entity.rs:50-70 | `None` exactly when the kind is absent. Otherwise the last component of that kind. |
| Entities.SetSlotKeepsIndex | wungeons2/src/state.rs:147-154 | Replacing a component by one of the same kind leaves the index unchanged. |
| Entities.SetSlotGet | wungeons2/src/state.rs:147-154 | After the slot is overwritten, getting that kind gives the new component, and every other kind gives what it gave before. |
| Effects.AllModifiers.constructor | wungeons2/src/effects.rs:41-47 | The default modifiers: all counters zero, no multipliers. |
| Effects.AllModifiers.Add | wungeons2/src/effects.rs:50-55 | Adds gold, shop discount and word-size change, moves `rhs.mults` onto the end of `mults` and empties it, and leaves `rack_size_change` alone. |
| Effects.AddedModifiers | wungeons2/src/effects.rs:50-55 | The receiver after `add`: the multipliers are concatenated, three counters are summed and the rack size is kept. |
| Effects.ApplyEffect | wungeons2/src/effects.rs:70-107 | One pass of the match in `get_all_modifiers_from_effects`. The shop discount, word size, gold and rack size are added to their counters, and a multiplier is pushed onto `mults`. A multiplier's curse is folded in right after it, as the recursive call does. ApplyEffectFields and CurseFoldedAfter characterise it. |
| Effects.ApplyEffects | wungeons2/src/effects.rs:68-110 | The effects folded into the modifiers left to right. GetAllModifiersFromEffects computes it, and ApplyEffectsConcat splits it over a concatenation. |
| Effects.GetAllModifiersFromEffects | wungeons2/src/effects.rs:68-110 | The loop folds every effect into `mods`, in order. |
| Effects.ApplyEffectsConcat | wungeons2/src/effects.rs:68-110 | Folding a concatenation folds the first part, then the second. |
| Effects.ApplyEffectFields | wungeons2/src/effects.rs:68-110 | Each counter becomes its old value plus what the effect grants. No effect touches a counter other than its own. |
| Effects.CurseFoldedAfter | wungeons2/src/effects.rs:84-103 | A multiplier effect with a curse has the effect of the multiplier, then the curse. |
| Effects.LowercaseFirstLetter | wungeons2/src/effects.rs:138-144 | The first character is lower-cased and the rest is kept. An ASCII capital becomes its small letter. |
| Effects.NatToStringRoundTrip | wungeons2/src/effects.rs:146-166 | The decimal digits written by `format!` read back as the number. |
| Effects.ExplainCurse | wungeons2/src/effects.rs:168-178 | No curse explains as the empty text. The explanation panics exactly for curses other than the word-size and rack-size changes. |
| Effects.GetEffectDescription | wungeons2/src/effects.rs:146-166 | Panics exactly for a multiplier effect with an unexplainable curse. Every description except the shop discount starts with "Gain +" or "Gain x". |
| Effects.DescriptionStatesAmount | wungeons2/src/effects.rs:146-166 | The number after "Gain +" or "Gain x" reads back as the effect's amount, including a negative size change. |
| Effects.IntReadsBack | wungeons2/src/effects.rs:146-166 | A number formatted with `{}` and followed by a space reads back as itself, sign included. |
| Letters.Repeat | wungeons2/src/letters.rs:3-40 | `c.repeat(n)` is n copies of c. |
| Letters.JoinLength | wungeons2/src/letters.rs:3-40 | The joined bag has as many tiles as the repeat counts add up to. |
| Letters.JoinCounts | wungeons2/src/letters.rs:3-40 | Each character occurs in the bag as often as its groups say. |
| Letters.JoinChars | wungeons2/src/letters.rs:3-40 | Every tile is one of the group characters. |
| Letters.JoinGroup | wungeons2/src/letters.rs:3-40 | Group g's tiles form one block, after all earlier groups' tiles. |
| Letters.GroupsTotal | wungeons2/src/letters.rs:3-40 | The 27 groups hold 100 tiles. |
| Letters.StartingTiles | wungeons2/src/letters.rs:3-40 | `get_starting_tiles`: each of the 27 (character, count) groups repeated count times, joined in source order. StartingTilesCount, StartingTileCount and JoinGroup characterise it. |
| Letters.StartingTilesCount | wungeons2/src/letters.rs:3-40 | `get_starting_tiles` returns exactly 100 tiles. |
| Letters.GroupsDistinct | wungeons2/src/letters.rs:3-40 | No character is listed in two groups. |
| Letters.StartingTileCount | wungeons2/src/letters.rs:3-40 | Each group's character occurs in the bag exactly its listed number of times. |
| Letters.GroupsDistinctCount | wungeons2/src/letters.rs:3-40 | When group characters are distinct, a character's count is its own group's count. |
| Letters.KeyChars | wungeons2/src/letters.rs:42-79 | The points map's keys are exactly the blank and the capital letters, which are the group characters. |
| Letters.NotablePoints | wungeons2/src/letters.rs:42-79 | The blank scores 0, K 5, J and X 8, Q and Z 10. |
| Letters.StartingTilePoints | wungeons2/src/letters.rs:42-79 | `get_starting_tile_points`: the fixed map from the blank and the 26 capital letters to their points. TilePointsKeys, NotablePoints and TilesHavePoints characterise it. |
| Letters.TilePointsKeys | wungeons2/src/letters.rs:42-79 | The points map has 27 keys: the blank and the 26 capital letters. |
| Letters.GroupsHavePoints | wungeons2/src/letters.rs:3-79 | Every group character has a point value. |
| Letters.TilesHavePoints | wungeons2/src/letters.rs:3-79 | Every tile of the bag has a point value. The blank scores 0, K 5, J and X 8, Q and Z 10. |
| Riddles.SplitTerminator | wungeons2/src/riddles.rs:4-5 | `split_terminator` yields lines without line feeds, and nothing for the empty text. |
| Riddles.FirstNewline | wungeons2/src/riddles.rs:5 | The index of the first line feed, or the length when there is none. |
| Riddles.LastComma | wungeons2/src/riddles.rs:7 | `rsplit_once(',')`: the index of the last comma, or none exactly when there is no comma. |
| Riddles.RemoveQuotes | wungeons2/src/riddles.rs:9-10 | The result has no double quote and is no longer than the input. |
| Riddles.RemoveQuotesIdentity | wungeons2/src/riddles.rs:9-10 | A text without double quotes is unchanged. |
| Riddles.ParseLine | wungeons2/src/riddles.rs:6-13 | A line fails exactly when it has no comma. |
| Riddles.GetRiddlesList | wungeons2/src/riddles.rs:3-15 | `get_riddles_list` on the CSV text: each line of `split_terminator("\n")` is split at its last comma, and the riddle loses its double quotes. It is `None` where a line has no comma and the `unwrap` panics. ParseLines, ParsedPair and SplitTerminatorRoundTrip state what it gives. |
| Riddles.ParseLines | wungeons2/src/riddles.rs:3-15 | `get_riddles_list` panics exactly when some line has no comma. Otherwise it gives one pair per line, in order. |
| Riddles.SplitTerminatorRoundTrip | wungeons2/src/riddles.rs:4-5 | Re-terminating the lines gives back a text that ends with a line feed or is empty, so no empty last riddle is produced. |
| Riddles.SplitTerminatorLastLine | wungeons2/src/riddles.rs:4-5 | A text without a final line feed ends with an unterminated last line. |
| Riddles.ParsedPair | wungeons2/src/riddles.rs:6-13 | Each pair is its line split at the last comma. The answer is the rest of the line, without commas. The riddle is the part before the comma, without quotes. |
| GameState.ListsOfPrefix | wungeons2/src/entity.rs:92-106 | The lists of a prefix one longer are those of the prefix plus the next list. |
| GameState.ListSingle | wungeons2/src/entity.rs:84-90 | One iteration of the first loop lists the id under one more one-element list. |
| GameState.ListedNothing | wungeons2/src/entity.rs:84-106 | Before either loop, the store is unchanged. |
| GameState.ListSystemAdd | wungeons2/src/entity.rs:92-106 | One iteration of the second loop makes the list a key and adds the id when the entity has all of the list's kinds. |
| GameState.ListSystemKey | wungeons2/src/entity.rs:92-106 | One iteration of the second loop makes the list a key without the id when the entity lacks one of the list's kinds. |
| GameState.RegisteredKinds | wungeons2/src/entity.rs:84-90 | After registration, the id is listed under the one-element list of each of its kinds. |
| GameState.RegisteredSystems | wungeons2/src/entity.rs:92-106 | After registration, every system list is a key. The id is listed under it exactly when the entity has all of its kinds or was listed there before. |
| GameState.RegisteredOthers | wungeons2/src/entity.rs:73-108 | Registration changes no other id's membership under any key. |
| GameState.SinglesRemove | wungeons2/src/entity.rs:84-90 | Taking a kind out of a set takes its one-element list out of the lists. |
| GameState.ListUnderKinds | wungeons2/src/entity.rs:84-90 | The first loop of `add_entity` lists the id under each kind's one-element list, creating the key when missing. |
| GameState.ListUnderSystems | wungeons2/src/entity.rs:92-106 | The second loop of `add_entity` makes every system list a key and lists the id where the entity has all of its kinds. |
| GameState.ListedCompose | wungeons2/src/entity.rs:84-106 | The two loops together register the id. |
| GameState.AddEntity | wungeons2/src/entity.rs:73-108 | The store registers the id, the entity map stores the entity under its id, and nothing else in the state changes. |
| GameState.State.constructor | wungeons2/src/state.rs:47-85 | An empty store and event queue, counter 0, no gold, floor 1 with fog on, default modifiers, the starting tile points, and the starting tiles through `refresh_tiles`. |
| GameState.State.RefreshTiles | wungeons2/src/state.rs:87-107 | The available letters become the starting tiles. Nothing else changes. |
| GameState.State.GetEntities | wungeons2/src/state.rs:109-111 | The ids under the list, or the empty set when the list is not a key. |
| GameState.State.RemoveEntity | wungeons2/src/state.rs:139-145 | The id leaves every set of the store and the entity map. The keys and every other id stay. |
| GameState.State.SetComponent | wungeons2/src/state.rs:147-154 | `ok` is false exactly where the source panics: the entity is missing, its index has no slot for the kind, or the slot is out of range. Nothing changes then. Otherwise the slot of the component's kind is overwritten, and one `ComponentChanged` event is queued exactly when the slot held something else. |
| GameState.State.RemoveAllByComponent | wungeons2/src/state.rs:161-171 | Nothing happens when the component's one-element list is not a key. Otherwise every entity listed under it is removed as `remove_entity` removes one. |
| GameState.State.ApplyModifiers | wungeons2/src/state.rs:173-175 | The state's modifiers gain the given ones as `AllModifiers::add` does. |
| DialogueSystem.Cells | wungeons2/src/dialogue.rs:50-64 | One entity per cell, with ids from the counter on. |
| DialogueSystem.PlacedLookup | wungeons2/src/dialogue.rs:50-64 | New entities are stored under consecutive ids from the counter on, and every other id keeps its entity. |
| DialogueSystem.PlacedKeeps | wungeons2/src/dialogue.rs:50-64 | An entity with an id below the counter is kept. |
| DialogueSystem.RegisteredGrows | wungeons2/src/entity.rs:73-108 | Registration only adds keys and ids. |
| DialogueSystem.RegisteredAllKinds | wungeons2/src/dialogue.rs:50-64 | Every created entity is listed under each of its kinds, and no other id changes its listings. |
| DialogueSystem.GlyphKinds | wungeons2/src/dialogue.rs:50-64 | A created cell is a `DialogueChar` entity with a z index. |
| DialogueSystem.LeastExists | wungeons2/src/dialogue.rs:11-21 | Among non-empty ids with z indexes, one has the least z. |
| DialogueSystem.ZMap | wungeons2/src/dialogue.rs:11-21 | The z indexes of the listed entities, keyed by exactly those ids. |
| DialogueSystem.Least | wungeons2/src/dialogue.rs:11-21 | An id of least z among a non-empty set. |
| DialogueSystem.MarkActivated | wungeons2/src/dialogue.rs:114 | The entity's `Activated` slot becomes `Activated(Some(true))`, and every other slot and the index are kept. |
| DialogueSystem.PlacingStep | wungeons2/src/dialogue.rs:50-64 | One more cell is stored under the next id and registered, and the counter moves on. |
| DialogueSystem.PlaceGlyphs | wungeons2/src/dialogue.rs:35-113 | The loop creates and registers the cell entities one after the other, with ids from the counter on. |
| DialogueSystem.PlacingEntities | wungeons2/src/dialogue.rs:35-113 | Placing stores each cell under its id with its position, z index and glyph, and keeps every earlier entity. |
| DialogueSystem.PlacingListings | wungeons2/src/dialogue.rs:35-113 | Each placed cell is listed under `[DialogueChar]`, and no listing of an earlier id changes. |
| DialogueSystem.ShowEffects | wungeons2/src/dialogue.rs:23-115 | After showing, the entity is activated. Every cell of the layout becomes an entity with its position, z index and glyph, and the change is queued. |
| DialogueSystem.Show | wungeons2/src/dialogue.rs:24-114 | `ok` is false exactly where the source panics. Otherwise the state becomes the shown state, or stays unchanged for an entity that is already activated. |
| DialogueSystem.FirstByZ | wungeons2/src/dialogue.rs:11-21 | Fails exactly when a listed entity lacks a z index. Otherwise it chooses none exactly for no ids, and else an id first in ascending z. |
| DialogueSystem.ShowDialogue | wungeons2/src/dialogue.rs:10-117 | The entity first in z order among those listed is shown. `ok` is false where a lookup panics, and nothing changes when no entity is listed. |
| DialogueLayout.CharRender | wungeons2/src/dialogue.rs:44-49 | Succeeds exactly for no colour or exactly one of foreground and background. The cell shows the character in white, or in the given colour. |
| DialogueLayout.WordGlyphs | wungeons2/src/dialogue.rs:76-93 | A word is drawn in white, one character per column from x on. |
| DialogueLayout.OptionTexts | wungeons2/src/dialogue.rs:71 | The option texts, in order. |
| DialogueLayout.LineOnOneRow | wungeons2/src/dialogue.rs:38-66 | A line without newlines goes on the cursor's row, one character per column, in the line's colour, and moves the cursor by its length. |
| DialogueLayout.LineFails | wungeons2/src/dialogue.rs:44-49 | A line fails exactly when its colour pair is unhandled and it has a character that is not a newline. |
| DialogueLayout.LineConcat | wungeons2/src/dialogue.rs:35-67 | Laying out two pieces of a line one after the other is laying out the whole line. |
| DialogueLayout.LineRows | wungeons2/src/dialogue.rs:35-67 | A line's cells lie between the start row and the final cursor row, at non-negative columns. |
| DialogueLayout.TextRows | wungeons2/src/dialogue.rs:35-67 | The same holds for all the text lines together. |
| DialogueLayout.OptionsOnOneRow | wungeons2/src/dialogue.rs:68-113 | The options take consecutive columns of one row. |
| DialogueLayout.OptionsBelowText | wungeons2/src/dialogue.rs:35-113 | The text goes on rows 0 to its last row, and the options on the next row from column 0. |
| DialogueLayout.OptionsGlyphsText | wungeons2/src/dialogue.rs:71-112 | The options' cells are the cells of one word, the options' text, laid out from the start column. |
| DialogueLayout.OptionsTextJoined | wungeons2/src/dialogue.rs:71-112 | That text is the non-empty options joined by `/`, plus a trailing `/` when the last option is empty and an earlier one is not. |
| DialogueLayout.SlashJoined | wungeons2/src/dialogue.rs:76-111 | Two words joined by `/` lay out as the first word, the slash in the next column, and the second word one column further on. |
| DialogueLayout.OptionsShown | wungeons2/src/dialogue.rs:68-113 | The options show as the non-empty ones joined by `/`, plus a trailing `/` when the last option is empty and an earlier one is not. |
| DialogueLayout.LayOutLine | wungeons2/src/dialogue.rs:38-66 | The inner loop computes the layout of one text line. |
| DialogueLayout.LayOutText | wungeons2/src/dialogue.rs:35-67 | The outer loop computes the layout of all the text lines. |
| DialogueLayout.AppendWord | wungeons2/src/dialogue.rs:76-93 | The character loop appends exactly the word's cells and advances the column by its length. |
| DialogueLayout.LayOutOption | wungeons2/src/dialogue.rs:72-111 | One pass of the options loop: an empty option adds nothing; the last option adds its word and stops; any other adds its word and a `/`, leaving the rest of the options still to lay out. |
| DialogueLayout.LayOutOptions | wungeons2/src/dialogue.rs:68-113 | The options loop computes the layout of the options. |
| DialogueLayout.Layout | wungeons2/src/dialogue.rs:35-113 | The glyphs `dialogue` draws: the text lines from (0, 0), then the options from column 0 of the row after the text's last row. It is `None` where a text character has a colour pair the source does not handle and panics. LayOut computes it, and OptionsShown, TextRows and OptionsBelowText characterise it. |
| DialogueLayout.LayOut | wungeons2/src/dialogue.rs:35-113 | The whole dialogue's layout. |
| Render.ErrorAtEdge | wungeons2/src/render.rs:380-388 | At an edge of the box, the error term blocks the step that would leave it. |
| Render.ErrorStep | wungeons2/src/render.rs:380-388 | One iteration keeps the error invariant and always advances along the longer axis. |
| Render.CursorCell | wungeons2/src/render.rs:369-389 | The cursor is at the target exactly when both axes are done. |
| Render.AdvanceOk | wungeons2/src/render.rs:380-388 | An iteration away from the target keeps the cursor reachable. |
| Render.AdvanceMoves | wungeons2/src/render.rs:380-388 | An iteration takes one step toward the target along the longer axis. |
| Render.ReachOk | wungeons2/src/render.rs:369-389 | Every cursor the loop reaches is valid. |
| Render.ReachMoves | wungeons2/src/render.rs:369-389 | Each iteration leaves fewer steps, so the loop ends. |
| Render.TraceLength | wungeons2/src/render.rs:369-389 | The trace ends at the target, with one cell per remaining step. |
| Render.TraceSteps | wungeons2/src/render.rs:369-389 | Consecutive cells of the trace are single steps toward the target. |
| Render.DistinctCells | wungeons2/src/render.rs:369-389 | The line visits no cell twice. |
| Render.BresenhamLineShape | wungeons2/src/render.rs:360-392 | The line starts at `pos0` and ends at `pos1`, with max(\|dx\|, \|dy\|) + 1 cells. It moves by at most one per axis toward the target, stays in the bounding box and visits no cell twice. |
| Render.BresenhamLinePoint | wungeons2/src/render.rs:360-392 | A line from a cell to itself is that cell alone. |
| Render.TargetOnLine | wungeons2/src/render.rs:360-392 | The target is on the line. |
| Render.BresenhamLine | wungeons2/src/render.rs:360-392 | The line `bresenham` returns: the cells the loop visits from `pos0`, each one step toward `pos1` as the error term decides, up to `pos1`. Render.Bresenham computes it, and BresenhamLineShape, TraceSteps, DistinctCells and TargetOnLine characterise it. |
| Render.Bresenham | wungeons2/src/render.rs:360-392 | The loop computes the line. |
| Wungeons1Components.Add | wungeons/src/components.rs:25-45 | Position addition is componentwise. |
| Wungeons1Components.Area | wungeons/src/components.rs:60-62 | A rectangle with non-negative sides has non-negative area, and a degenerate one has area 0. |
| Wungeons1Components.Center | wungeons/src/components.rs:64-69 | The centre lies within the rectangle, at half the side length rounded toward zero. |
| Wungeons1Components.Intersects | wungeons/src/components.rs:103-115 | For non-negative sizes, two rectangles intersect exactly when some point lies in both closed boxes. |
| Wungeons1Components.IntersectsSymmetric | wungeons/src/components.rs:103-115 | Intersection does not depend on argument order. |
| Wungeons1Components.ContainsPoint | wungeons/src/components.rs:117-122 | `contains_point`: the point lies in the closed box from `pos1` to `pos1` plus the width and height. ContainsPointIsIntersects ties it to Intersects. |
| Wungeons1Components.ContainsPointIsIntersects | wungeons/src/components.rs:117-122 | Containing a point is intersecting with a zero-size rectangle at it. |
| Wungeons1Components.GetItemChar | wungeons/src/components.rs:152-156 | A key is drawn as 'k'. |
| Wungeons1Components.GetDefaultComponent | wungeons/src/components.rs:158-174 | The default is of the same kind, with its payload cleared. |
| Wungeons1Components.DefaultComponentKinds | wungeons/src/components.rs:158-174 | Same default exactly when same kind. The default is idempotent and fixes exactly the defaults. |
| Wungeons1Entity.NewEntity | wungeons/src/entity.rs:8-15 | The entity takes the counter's value as its id and the counter is incremented. The component set holds exactly the given components, no more of them than were given. |
| Wungeons1Entity.SetOfSize | wungeons/src/entity.rs:8-15 | A list has at least as many entries as distinct entries. |
| Wungeons1Entity.ListedNothing | wungeons/src/entity.rs:23-57 | Before the loop, the index is unchanged. |
| Wungeons1Entity.ListSystemAdd | wungeons/src/entity.rs:23-57 | One iteration makes the list a key and adds the id when the entity has all of the list's kinds. |
| Wungeons1Entity.ListSystemKey | wungeons/src/entity.rs:23-57 | One iteration makes the list a key without the id when the entity lacks a kind. |
| Wungeons1Entity.ListsOfPrefix | wungeons/src/entity.rs:23-57 | The lists of a prefix one longer are those of the prefix plus the next list. |
| Wungeons1Entity.AddEntity | wungeons/src/entity.rs:23-57 | Every system list becomes a key, with the id where the entity has all of its kinds, and the entity is stored under its id. |
| Wungeons1Entity.RegisteredSystems | wungeons/src/entity.rs:23-57 | Every system list is a key. The id is under it exactly when the entity has all of its kinds or was there before. |
| Wungeons1Entity.RegisteredOthers | wungeons/src/entity.rs:23-57 | No other id is added or dropped anywhere. Keys that are no system's list keep their sets. |
| Wungeons1Render.Lift | wungeons/src/render.rs:61-93 | The same cells in this crate's `Position` type. |
| Wungeons1Render.LineEnds | wungeons/src/render.rs:61-93 | The line has max(\|dx\|, \|dy\|) + 1 cells, from `pos0` to `pos1`. |
| Wungeons1Render.LineSteps | wungeons/src/render.rs:61-93 | Consecutive cells are single steps toward the target. |
| Wungeons1Render.LineInBox | wungeons/src/render.rs:61-93 | The line stays in the bounding box and visits no cell twice. |
| Wungeons1Render.Bresenham | wungeons/src/render.rs:61-93 | The loop's line has the length, endpoints, steps and box of the line above. |
| Wetris.RotateDirection | wetris/bin/wetris.rs:63-70 | A quarter turn always changes the direction. |
| Wetris.RotateFour | wetris/bin/wetris.rs:63-70 | Four quarter turns are the identity, and two are not. |
| Wetris.RotateRight | wetris/bin/wetris.rs:74-83 | The same kind, facing a quarter turn further. |
| Wetris.RotateRightFour | wetris/bin/wetris.rs:74-83 | Four rotations give the piece back, and one never does. |
| Wetris.Hit | wetris/bin/wetris.rs:85-95 | The shape's cell at (x, y), present exactly when (x, y) is inside the 4×4 box at `pos` and that cell is non-zero. |
| Wetris.HitOutsideBox | wetris/bin/wetris.rs:85-95 | `hit` outside the box is always `None`. |
| Wetris.TableIndex | wetris/bin/wetris.rs:98-321 | Every piece has an index in the 24-entry table. |
| Wetris.ShapesIndexed | wetris/bin/wetris.rs:98-321 | The table has 24 entries, each at its piece's index, so every piece has exactly one entry. |
| Wetris.Find | wetris/bin/wetris.rs:350 | A lookup succeeds exactly when the piece has an entry. |
| Wetris.FindEntry | wetris/bin/wetris.rs:350 | In a table without repeated pieces, the lookup gives the entry's grid. |
| Wetris.ShapeOf | wetris/bin/wetris.rs:350 | `shapes[&t]` is the table entry at the piece's index. It never misses. |
| Wetris.ShapesAreTetriminos | wetris/bin/wetris.rs:98-321 | Every piece's grid is a 4×4 grid of 0s and 1s with exactly four blocks. |
| Wetris.StraightFour | wetris/bin/wetris.rs:99-135 | Each grid of the straight piece has four blocks. |
| Wetris.SquareFour | wetris/bin/wetris.rs:136-172 | Each grid of the square has four blocks. |
| Wetris.TFour | wetris/bin/wetris.rs:173-209 | Each grid of the T has four blocks. |
| Wetris.LFour | wetris/bin/wetris.rs:210-246 | Each grid of the L has four blocks. |
| Wetris.SFour | wetris/bin/wetris.rs:247-283 | Each grid of the S has four blocks. |
| Wetris.ZFour | wetris/bin/wetris.rs:284-321 | Each grid of the Z has four blocks. |
| Wetris.SquareSymmetric | wetris/bin/wetris.rs:47 | The square looks the same whichever way it faces. |
| Wetris.HalfTurnSymmetric | wetris/bin/wetris.rs:46-51 | The straight piece, the S and the Z look the same after a half turn. |
| Wetris.WindowFindsOverlap | wetris/bin/wetris.rs:429-457 | Scanning the window at the piece's own position finds a hit exactly when the piece covers a filled cell. |
| Wetris.Request | wetris/bin/wetris.rs:395-423 | Up requests a rotation. Left, Right and Down request a step of one cell, never upward. Any other key requests nothing. |
| Wetris.MovedAsWritten | wetris/bin/wetris.rs:429-560 | The move request as the game loop decides it. The overlap and wall scans look at the window at the piece's current position, not at the requested one. AsWrittenMovesIntoBlock and RotationAsWrittenAgrees characterise it. |
| Wetris.Moved | wetris/bin/wetris.rs:429-560 | The move request as intended. No request keeps the piece. A request whose piece, at the requested position, covers a filled cell or a cell past a side wall or the floor is refused. Any other request takes the requested piece and position. MovedGranted characterises it. |
| Wetris.AsWrittenMovesIntoBlock | wetris/bin/wetris.rs:429-560 | As written, a flat straight piece at (0, 0) steps right onto a filled cell at (4, 1). |
| Wetris.MovedGranted | wetris/bin/wetris.rs:429-560 | A request is granted exactly when the requested piece at the requested place covers no filled cell, no cell just past a side wall and no cell just below the floor. Otherwise nothing moves. |
| Wetris.RotationAsWrittenAgrees | wetris/bin/wetris.rs:429-560 | For rotations in place, the code as written and the corrected window agree. |
| Wetris.Gravity | wetris/bin/wetris.rs:563-566 | The piece moves one row down on every fifth tick and stays put otherwise. The column never changes. |
| Wetris.Locked | wetris/bin/wetris.rs:590-597 | Locking keeps a 20×10 board. |
| Wetris.LockedFills | wetris/bin/wetris.rs:590-597 | Locking a piece that fits fills exactly the piece's cells, besides those already filled, and changes no other cell. |
| Wetris.LockedBinary | wetris/bin/wetris.rs:590-597 | Locking a 0/1 shape into a 0/1 board keeps it 0/1. |
| Wetris.Contents | wetris/bin/wetris.rs:352-373 | The 20×10 board held by the grid array, cell by cell. |
| Wetris.ScanHit | wetris/bin/wetris.rs:429-457 | The overlap scan's result is whether the window holds a filled cell that the piece covers. |
| Wetris.ScanOut | wetris/bin/wetris.rs:458-504 | The wall scans' result is whether the piece covers a cell just outside a side wall on the window's rows, or just below the floor on its columns. |
| Wetris.ScanFall | wetris/bin/wetris.rs:570-583 | The fall scan's result is whether the piece covers a filled cell or a cell below the floor. |
| Wetris.Lock | wetris/bin/wetris.rs:590-597 | Succeeds exactly when the piece fits the board. Then the grid becomes the locked board. |
| Wetris.LockRow | wetris/bin/wetris.rs:592-596 | One row of the shape: it fails only when the piece does not fit. Otherwise the cells of that row are written and the loop invariants hold for the next row. |
| Wetris.Game.constructor | wetris/bin/wetris.rs:352-373 | An empty board, and the first piece at the starting position with tick 0. |
| Wetris.Game.Move | wetris/bin/wetris.rs:429-560 | The piece and position become what `Moved` grants. The board and tick are unchanged. |
| Wetris.Game.Fall | wetris/bin/wetris.rs:563-604 | When not blocked, the piece moves to its gravity candidate and the board is unchanged. When blocked, the lock succeeds exactly when the piece fits at its old position. The piece is then written into the board and the next piece starts at the starting position. |
| Wurdle.AfterWon | wurdle/src/lib.rs:414-434 | The counters after `won(attempt)`: one more game, win and streak, the best streak raised to the streak, and the distribution counter of attempts 1 to 6 incremented. WonCounts and ConsistentKept characterise it. |
| Wurdle.AfterLost | wurdle/src/lib.rs:436-439 | The counters after `lost()`: one more game, and the streak reset to 0. LostCounts and ConsistentKept characterise it. |
| Wurdle.WonCounts | wurdle/src/lib.rs:414-434 | A win adds one game, one win and one to the streak. The best streak becomes the larger of the two, and only the winning attempt's distribution counter grows. |
| Wurdle.LostCounts | wurdle/src/lib.rs:436-439 | A loss adds one game and resets the streak. Wins, the best streak and the distribution stay. |
| Wurdle.ConsistentKept | wurdle/src/lib.rs:381-439 | The zero record is consistent, and wins and losses keep it consistent: wins and the best streak at most the games played, the streak at most the best streak, and the distribution summing to at most the wins. |
| Wurdle.Stats.constructor | wurdle/src/lib.rs:365-376 | A record holding the given counters. |
| Wurdle.Stats.Won | wurdle/src/lib.rs:414-434 | The counters become those after a win on that attempt. |
| Wurdle.Stats.Lost | wurdle/src/lib.rs:436-439 | The counters become those after a loss. |
| Wurdle.Stats.Finish | wurdle/src/lib.rs:103-117 | The end-of-game bookkeeping updates the counters for the outcome, and the saved counters are the updated ones. |
| Wurdle.AsWrittenLossUnsaved | wurdle/src/lib.rs:110-116 | As written, the save on a loss writes the counters from before the game, not those after it. |
| Wurdle.ShowNat | wurdle/src/lib.rs:456-470 | `Display` of a number gives one or more digits, with no leading zero. |
| Wurdle.DigitsOfShow | wurdle/src/lib.rs:456-470 | The digits read back as the number. |
| Wurdle.ParseUsize | wurdle/src/lib.rs:387-396 | A parsed value never exceeds `usize::MAX`. |
| Wurdle.ParseShow | wurdle/src/lib.rs:387-396 | Parsing what `Display` writes gives back any `usize`. |
| Wurdle.Split | wurdle/src/lib.rs:385 | `split("\n")` always yields at least one piece. |
| Wurdle.SplitFront | wurdle/src/lib.rs:385 | A piece without line feeds, followed by a line feed, splits off in front. |
| Wurdle.SplitNone | wurdle/src/lib.rs:385 | A text without line feeds is one piece. |
| Wurdle.Fields | wurdle/src/lib.rs:365-376 | The ten counters in file order. |
| Wurdle.SplitLines | wurdle/src/lib.rs:385 | Splitting numbers written one per line gives each number's digits. |
| Wurdle.ParseAll | wurdle/src/lib.rs:387-396 | Each line parsed in order: all values when every line parses, none when one does not. |
| Wurdle.CountsOf | wurdle/src/lib.rs:386-397 | The record built from ten values has them as its fields, in file order. |
| Wurdle.Read | wurdle/src/lib.rs:381-412 | `read`: the zero record when the file cannot be read. Otherwise the first ten lines of `split("\n")`, parsed as `usize`, become the counters in file order. It is `None` where the source panics: fewer than ten lines, or a line that is not a `usize`. ReadAccepts and ReadText characterise it. |
| Wurdle.ReadAccepts | wurdle/src/lib.rs:381-412 | `read` succeeds exactly for a missing file, or a file whose first ten lines parse as `usize`. Those values become the counters in order. |
| Wurdle.ReadText | wurdle/src/lib.rs:381-470 | Reading the text `save` writes gives the record back when every counter fits a `usize`. |
| Wurdle.ReadTextIfFits | wurdle/src/lib.rs:381-470 | The same round trip, as an implication for every record. |
| Wurdle.LinesAppend | wurdle/src/lib.rs:456-470 | A digit after numbers written one per line extends the last number. |
| Wurdle.LinesLength | wurdle/src/lib.rs:456-470 | Numbers written one per line take their digits plus one line feed between each two. |
| Wurdle.TextLength | wurdle/src/lib.rs:456-470 | The file text holds each counter's digits and nine line feeds. |
| Wurdle.TextAppend | wurdle/src/lib.rs:456-470 | A digit after the text extends the last counter, `dist_6`. |
| Wurdle.SaveAsWritten | wurdle/src/lib.rs:441-470 | The file after `save` as written: the new text, then the old file's characters past its length, because the file is not truncated. SaveOverLonger, StaleTail and AsWrittenSaveKeepsTail characterise it. |
| Wurdle.SaveOverLonger | wurdle/src/lib.rs:441-470 | As written, saving over a file one character longer than the new text keeps its last character. |
| Wurdle.StaleTail | wurdle/src/lib.rs:441-470 | As written, when the old text is one digit longer than the new, its last digit stays behind the new text. |
| Wurdle.SameLength | wurdle/src/lib.rs:456-470 | In the example, the text after the loss is as long as the old text without its final digit. |
| Wurdle.AsWrittenSaveKeepsTail | wurdle/src/lib.rs:441-470 | As written, such a save reads back with `dist_6` multiplied by ten plus the stale digit, not as the record saved. |
| Wurdle.LossAfterStreakOfTen | wurdle/src/lib.rs:436-470 | Ten wins on the sixth attempt, then a loss. The save at the loss writes the old counters. The next save writes the counters after the loss: streak 0 where the file holds 10, so that text is one character shorter and the old final 0 stays. The file then reads back `dist_6` = 100. |
| Wurdle.Save | wurdle/src/lib.rs:441-470 | The corrected save writes exactly the new text, which reads back as the record. |
| Wurdle.MarkOf | wurdle/src/lib.rs:87-101 | Green exactly when the letter is the word's letter there, yellow exactly when it is elsewhere in the word, plain otherwise. |
| Wurdle.Feedback | wurdle/src/lib.rs:87-101 | One mark per letter, up to the word's length. |
| Wurdle.AllCorrectIffWord | wurdle/src/lib.rs:87-109 | A guess of the word's length is all green exactly when it is the word. |
| Wurdle.MarkLetters | wurdle/src/lib.rs:87-101 | The marking loop adds each letter to the set of its colour. |
| Wurdle.ColorOfKey | wurdle/src/lib.rs:126-146 | Green exactly for correct letters, then yellow for misplaced ones. White exactly for unused, non-space letters that are available. |
| Wurdle.WinningGuessGreen | wurdle/src/lib.rs:87-146 | After the winning guess is marked, every letter of the word is green on the keyboard. |
| Wurdle.Admit | wurdle/src/lib.rs:77-80 | The "not a word" flag is set exactly when the last attempt is not a word. At most that attempt is dropped, and nothing is dropped when the flag is clear. |
| Wurdle.AdmitKeepsWords | wurdle/src/lib.rs:77-80 | If the earlier attempts are words, all the kept attempts are words. A new guess is kept exactly when it is a word. |
| Wurdle.Verdict | wurdle/src/lib.rs:103-117 | A guess wins on its attempt, counted from 1, exactly when it is the word. It loses exactly when it is not the word and is the last try. |
| Wurdle.Scan | wurdle/src/lib.rs:82-121 | The scan over the attempts so far, up to `tries`, collects the ends it meets. A letter is green, yellow or plain afterwards exactly when it was before or some scanned attempt has it in that colour. |
| Wurdle.GameOverRule | wurdle/src/lib.rs:82-121 | During play the scan meets at most one end: a win when the last attempt is the word, otherwise a loss when the tries are used up. |
| Wurdle.NoEndBefore | wurdle/src/lib.rs:82-121 | During play, nothing ends before the last attempt. |

## Left out

- Terminal I/O is not modelled: printing, screen clearing, colouring with ANSI codes, reading key presses and lines, sleeping and the `render` functions. It is not logic.
- Random draws are not modelled: `get_mino`, `get_word`, `get_random_effect`, the daily-word clock and the shuffles. The model takes the drawn value as a parameter where it matters (the first wetris piece, the next piece after a lock).
- woker is modelled without `get_five_card_rank_percentage` and `hand_summary`: they compute floating-point percentages and print.
- woker's `main` demo is not modelled: it parses command-line cards and prints.
- BitSequence.NextGrows: it states only that the successor grows and stays below 2^14. That the bit trick gives the next pattern with the same number of set bits is proved for five-bit patterns within the thirteen ranks by FlushEnumeration.SuccVal.
- FlushEnumeration.FlushPatternsShape: the list is proved to hold 1277 different 13-bit patterns without straight flushes, not to be in descending order. The ranks do not depend on that order being numeric: each flush gets the rank of its place in the list.
- Evaluator.Five: the model does not prove that every five valid cards find their key in the built tables, so that the source's lookups never panic. It proves the ranks found lie in 1..7462 and the royal flush and the five-high straight flush examples.
- Effects.LowercaseFirstLetter: only the ASCII capitals A–Z are lower-cased, and the length is kept. Rust's `to_lowercase` covers every Unicode capital and may give several characters. The callers pass ASCII effect descriptions.
- Evaluator.Evaluate: for six and seven cards it states bounds and minimality over the combinations, not the exact value. `Six` and `Seven` state the exact value.
- The `i64` and `usize` arithmetic is modelled without overflow: woker's products and ranks, wungeons' `isize` coordinates and the wurdle counters. None of them reaches its limit in play.
- Wetris.Gravity: the frame counter `tick` is an `i32` (wetris/bin/wetris.rs:377, 604). The model's tick is an unbounded `nat`. In the source it overflows after 2^31 - 1 frames, about five years at the loop's 72 ms sleep. A debug build panics there. A release build wraps to -2^31. Rust's `%` truncates toward zero, so `tick % 5` is then never positive. It is still 0 on multiples of five, but the drop after the wrap comes six frames after the last one instead of five.
- `line_rect` and `line_line` are not modelled: they are floating-point segment tests used only by rendering. The same holds for the rooms, items and other fields of the wungeons state that this core does not read.
- The `get_component!` macro is modelled through `Entities.GetComponent` and the payload projections in `DialogueSystem`. Its hash-map iteration order is not.
- Wungeons1Entity.AddEntity: the system functions stored by the older `add_entity` are dropped. Only their component lists take part in registration.
- DialogueSystem.ShowDialogue: requires that every stored id is below the entity counter, which `new_entity` guarantees.
- DialogueSystem.ShowDialogue: among entities with equal z index it chooses some first one, because the source's order there follows hash-set iteration.
- DialogueSystem.ShowDialogue: where the source panics midway through showing, the model reports `ok == false` and leaves the state unspecified.
- Wurdle.Scan: `input.to_uppercase()` and the escape-sequence stripping of the input line are not modelled. Attempts are taken as given strings.
- Wurdle.Stats.Finish: the redraw loop repeats the end-of-game bookkeeping on every redraw after the game is over, until the player answers. The model applies it once per game.
- The wurdle statistics screen is not modelled: its formatting, bar chart and floating-point win rate are display only.
- Wetris.Game.Move: uses the corrected window, at the requested position. The as-written scan is `Wetris.MovedAsWritten`, compared under Findings.
- Wetris.ScanOut: like the source, it checks only the columns just outside the side walls (−1 and 10) and the row just below the floor (20), not cells further out.
- Wetris.Game.Fall: it does not model line clearing or game over, because the source has neither.

## Findings

| source | as written | input that shows it | evidently intended | confidence | as-written member | corrected member |
|---|---|---|---|---|---|---|
| woker/src/main.rs:672-698 | Only the first branch checks the lower bound 0. Every later branch tests `hr <= MAX_*` alone. | hr = −1 is classed 2, Four of a Kind, instead of panicking as an invalid rank. | Ranks outside 0..=7462 are rejected. | not executed | RankClass.NegativeRankMisclassified | RankClass.GetRankClass |
| wungeons2/src/colors.rs:14-17 | Green and blue are taken from `color.3`, the alpha channel. | darken_color((0, 0, 0, 255)) = (0, 127, 127, 255), a teal instead of black. | Halve each colour channel and keep alpha. | not executed | Colors.DarkenBlackAsWritten | Colors.DarkenColor |
| wetris/bin/wetris.rs:429-560 | The overlap scan ranges over the window at the current position, not at the requested one. | Board with one block at (4, 1); flat straight piece at (0, 0) covering (0..3, 1); key Right. The step is accepted and the piece covers the block. | A move is granted only when the piece at the requested place overlaps nothing. | not executed | Wetris.AsWrittenMovesIntoBlock | Wetris.MovedGranted |
| wurdle/src/lib.rs:110-116 | On a loss, `save` runs before `lost`, so the saved file misses the game just lost. | Lose a game and answer "n": the file still holds the counters from before the loss. | Count the loss, then save, as the win branch does. | not executed | Wurdle.AsWrittenLossUnsaved | Wurdle.Stats.Finish |
| wurdle/src/lib.rs:441-470 | The existing file is opened for writing without truncation, so a shorter text leaves the old file's tail in place. | Stats 10,10,10,10,0,0,0,0,0,10, then a loss: streak 10 becomes 0. The save at the loss writes the old counters. The next save (a redraw before the player answers, or the next game's save) writes a text one character shorter; the old final "0" stays, and `dist_6` reads back as 100. | The file holds exactly the new text. | not executed | Wurdle.LossAfterStreakOfTen | Wurdle.Save |
