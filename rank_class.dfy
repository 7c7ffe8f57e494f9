/** `get_rank_class` (woker/src/main.rs:672-698) and the two maps `init`
    builds to name the classes (woker/src/main.rs:98-125). A panic is `None`. */
module RankClass {
  import opened Wrappers
  import opened LookupTables

  /** `max_to_rank_class`: the nine `MAX_*` constants, best first, to 1..9. */
  const MAX_TO_RANK_CLASS: map<int, nat> := map[
    MAX_STRAIGHT_FLUSH := 1, MAX_FOUR_OF_A_KIND := 2, MAX_FULL_HOUSE := 3,
    MAX_FLUSH := 4, MAX_STRAIGHT := 5, MAX_THREE_OF_A_KIND := 6,
    MAX_TWO_PAIR := 7, MAX_PAIR := 8, MAX_HIGH_CARD := 9]

  /** `rank_class_to_string`. */
  const RANK_CLASS_TO_STRING: map<nat, string> := map[
    1 := "Straight Flush", 2 := "Four of a Kind", 3 := "Full House",
    4 := "Flush", 5 := "Straight", 6 := "Three of a Kind",
    7 := "Two Pair", 8 := "Pair", 9 := "High Card"]

  /** The upper bound of class k (1..9): the `MAX_*` constant mapped to k. */
  function ClassMax(k: nat): (m: int)
    requires 1 <= k <= 9
    ensures m in MAX_TO_RANK_CLASS && MAX_TO_RANK_CLASS[m] == k
  {
    if k == 1 then MAX_STRAIGHT_FLUSH
    else if k == 2 then MAX_FOUR_OF_A_KIND
    else if k == 3 then MAX_FULL_HOUSE
    else if k == 4 then MAX_FLUSH
    else if k == 5 then MAX_STRAIGHT
    else if k == 6 then MAX_THREE_OF_A_KIND
    else if k == 7 then MAX_TWO_PAIR
    else if k == 8 then MAX_PAIR
    else MAX_HIGH_CARD
  }

  /** `get_rank_class` as written: the first branch tests `0..=MAX_STRAIGHT_FLUSH`,
      every later one only an upper bound, so a negative rank falls into the
      second branch. */
  function RankClassAsWritten(hr: int): (r: Option<nat>)
    ensures r.Some? <==> hr <= MAX_HIGH_CARD
    ensures hr < 0 ==> r == Some(MAX_TO_RANK_CLASS[MAX_FOUR_OF_A_KIND])
  {
    if 0 <= hr <= MAX_STRAIGHT_FLUSH then Some(MAX_TO_RANK_CLASS[MAX_STRAIGHT_FLUSH])
    else if hr <= MAX_FOUR_OF_A_KIND then Some(MAX_TO_RANK_CLASS[MAX_FOUR_OF_A_KIND])
    else if hr <= MAX_FULL_HOUSE then Some(MAX_TO_RANK_CLASS[MAX_FULL_HOUSE])
    else if hr <= MAX_FLUSH then Some(MAX_TO_RANK_CLASS[MAX_FLUSH])
    else if hr <= MAX_STRAIGHT then Some(MAX_TO_RANK_CLASS[MAX_STRAIGHT])
    else if hr <= MAX_THREE_OF_A_KIND then Some(MAX_TO_RANK_CLASS[MAX_THREE_OF_A_KIND])
    else if hr <= MAX_TWO_PAIR then Some(MAX_TO_RANK_CLASS[MAX_TWO_PAIR])
    else if hr <= MAX_PAIR then Some(MAX_TO_RANK_CLASS[MAX_PAIR])
    else if hr <= MAX_HIGH_CARD then Some(MAX_TO_RANK_CLASS[MAX_HIGH_CARD])
    else None
  }

  /** The classifier with the lower bound the first branch evidently intends
      applied to every rank: a negative rank is rejected like one above 7462. */
  function GetRankClass(hr: int): (r: Option<nat>)
    ensures r.Some? <==> 0 <= hr <= MAX_HIGH_CARD
    ensures r.Some? ==> 1 <= r.value <= 9
    ensures r.Some? ==> hr <= ClassMax(r.value)
    ensures r.Some? && r.value > 1 ==> ClassMax(r.value - 1) < hr
  {
    if hr < 0 then None else RankClassAsWritten(hr)
  }

  /** A negative rank, which no evaluation produces, is classed as Four of a
      Kind by the code as written and rejected by the corrected classifier. */
  lemma NegativeRankMisclassified()
    ensures RankClassAsWritten(-1) == Some(2)
    ensures GetRankClass(-1) == None
  {
  }

  /** On every rank `evaluate` can return, the two agree. */
  lemma AgreeOnRanks(hr: int)
    requires 0 <= hr
    ensures GetRankClass(hr) == RankClassAsWritten(hr)
  {
  }

  /** The class never decreases as the rank grows (a worse hand). */
  lemma RankClassMonotone(a: int, b: int)
    requires 0 <= a <= b <= MAX_HIGH_CARD
    ensures GetRankClass(a).Some? && GetRankClass(b).Some?
    ensures GetRankClass(a).value <= GetRankClass(b).value
  {
  }

  /** At each boundary the `MAX_*` value gets its own class and the next
      value the next class. */
  lemma RankClassBoundaries(k: nat)
    requires 1 <= k <= 9
    ensures GetRankClass(ClassMax(k)) == Some(k)
    ensures k < 9 ==> GetRankClass(ClassMax(k) + 1) == Some(k + 1)
    ensures k == 9 ==> GetRankClass(ClassMax(k) + 1) == None
  {
  }

  /** Every class has a name, and the names cover exactly the nine classes. */
  lemma ClassesNamed(hr: int)
    requires GetRankClass(hr).Some?
    ensures GetRankClass(hr).value in RANK_CLASS_TO_STRING
    ensures RANK_CLASS_TO_STRING.Keys == MAX_TO_RANK_CLASS.Values
  {
    assert MAX_TO_RANK_CLASS.Values == {1, 2, 3, 4, 5, 6, 7, 8, 9} by {
      forall k | k in MAX_TO_RANK_CLASS.Values ensures 1 <= k <= 9 { }
      forall k: nat | 1 <= k <= 9 ensures k in MAX_TO_RANK_CLASS.Values {
        var m := ClassMax(k);
      }
    }
  }
}
