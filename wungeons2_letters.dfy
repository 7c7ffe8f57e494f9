/** The starting tile bag and tile points of wungeons2/src/letters.rs. */
module Letters {
  /** `get_starting_tiles` lists each character with its repeat count; the bag
      is these groups joined in order. */
  const TILE_GROUPS: seq<(char, nat)> := [
    (' ', 2),
    ('E', 12), ('A', 9), ('I', 9), ('O', 8), ('N', 6), ('R', 6), ('T', 6),
    ('L', 4), ('S', 4), ('U', 4),
    ('D', 4), ('G', 3),
    ('B', 2), ('C', 2), ('M', 2), ('P', 2),
    ('F', 2), ('H', 2), ('V', 2), ('W', 2), ('Y', 2),
    ('K', 1),
    ('J', 1), ('X', 1),
    ('Q', 1), ('Z', 1)]

  /** `c.repeat(n)`. */
  function Repeat(c: char, n: nat): (r: seq<char>)
    ensures |r| == n
    ensures forall i :: 0 <= i < n ==> r[i] == c
  {
    if n == 0 then [] else Repeat(c, n - 1) + [c]
  }

  /** The groups joined in order: `[..].join("").chars().collect()`. */
  function Join(groups: seq<(char, nat)>): seq<char> {
    if |groups| == 0 then [] else Join(groups[..|groups| - 1]) + Repeat(groups[|groups| - 1].0, groups[|groups| - 1].1)
  }

  /** Sum of the repeat counts. */
  function TotalCount(groups: seq<(char, nat)>): nat {
    if |groups| == 0 then 0 else TotalCount(groups[..|groups| - 1]) + groups[|groups| - 1].1
  }

  /** How many times `c` occurs in the groups' counts. */
  function CountOf(groups: seq<(char, nat)>, c: char): nat {
    if |groups| == 0 then 0
    else CountOf(groups[..|groups| - 1], c) + (if groups[|groups| - 1].0 == c then groups[|groups| - 1].1 else 0)
  }

  /** `get_starting_tiles`. */
  function StartingTiles(): seq<char> {
    Join(TILE_GROUPS)
  }

  /** `get_starting_tile_points`. */
  const TILE_POINTS: map<char, nat> := map[
    ' ' := 0,
    'E' := 1, 'A' := 1, 'I' := 1, 'O' := 1, 'N' := 1, 'R' := 1, 'T' := 1,
    'L' := 1, 'S' := 1, 'U' := 1,
    'D' := 2, 'G' := 2,
    'B' := 3, 'C' := 3, 'M' := 3, 'P' := 3,
    'F' := 4, 'H' := 4, 'V' := 4, 'W' := 4, 'Y' := 4,
    'K' := 5,
    'J' := 8, 'X' := 8,
    'Q' := 10, 'Z' := 10]

  function StartingTilePoints(): map<char, nat> {
    TILE_POINTS
  }

  /** The joined bag has as many tiles as the counts add up to. */
  lemma {:induction false} JoinLength(groups: seq<(char, nat)>)
    ensures |Join(groups)| == TotalCount(groups)
  {
    if |groups| > 0 {
      JoinLength(groups[..|groups| - 1]);
    }
  }

  /** Each character occurs in the bag as often as its groups say. */
  lemma {:induction false} JoinCounts(groups: seq<(char, nat)>, c: char)
    ensures multiset(Join(groups))[c] == CountOf(groups, c)
  {
    if |groups| > 0 {
      var last := groups[|groups| - 1];
      JoinCounts(groups[..|groups| - 1], c);
      RepeatCounts(last.0, last.1, c);
    }
  }

  lemma {:induction false} RepeatCounts(d: char, n: nat, c: char)
    ensures multiset(Repeat(d, n))[c] == if d == c then n else 0
  {
    if n > 0 {
      RepeatCounts(d, n - 1, c);
    }
  }

  /** Every tile of the bag is one of the group characters. */
  lemma {:induction false} JoinChars(groups: seq<(char, nat)>, i: nat)
    requires i < |Join(groups)|
    ensures exists g :: 0 <= g < |groups| && Join(groups)[i] == groups[g].0
  {
    var init := groups[..|groups| - 1];
    var last := groups[|groups| - 1];
    if i < |Join(init)| {
      JoinChars(init, i);
      var g :| 0 <= g < |init| && Join(init)[i] == init[g].0;
      assert groups[g] == init[g];
    } else {
      assert Join(groups)[i] == last.0;
    }
  }

  /** Groups in order: the tiles of group g occupy a contiguous block that
      begins after all earlier groups' tiles. */
  lemma {:induction false} JoinGroup(groups: seq<(char, nat)>, g: nat)
    requires g < |groups|
    ensures TotalCount(groups[..g]) + groups[g].1 <= |Join(groups)|
    ensures Join(groups)[TotalCount(groups[..g])..TotalCount(groups[..g]) + groups[g].1] == Repeat(groups[g].0, groups[g].1)
  {
    var init := groups[..|groups| - 1];
    JoinLength(groups);
    JoinLength(init);
    if g == |groups| - 1 {
      assert groups[..g] == init;
    } else {
      JoinGroup(init, g);
      assert init[..g] == groups[..g];
      assert init[g] == groups[g];
    }
  }

  lemma TotalSnoc(groups: seq<(char, nat)>, k: nat)
    requires k < |groups|
    ensures TotalCount(groups[..k + 1]) == TotalCount(groups[..k]) + groups[k].1
  {
    assert groups[..k + 1][..k] == groups[..k];
  }

  /** The first thirteen groups, blank to G, hold 77 tiles. */
  lemma FirstGroupsTotal()
    ensures TotalCount(TILE_GROUPS[..13]) == 77
  {
    var g := TILE_GROUPS;
    assert g[..0] == [];
    TotalSnoc(g, 0); TotalSnoc(g, 1); TotalSnoc(g, 2); TotalSnoc(g, 3); TotalSnoc(g, 4);
    TotalSnoc(g, 5); TotalSnoc(g, 6); TotalSnoc(g, 7); TotalSnoc(g, 8); TotalSnoc(g, 9);
    TotalSnoc(g, 10); TotalSnoc(g, 11); TotalSnoc(g, 12);
  }

  /** The first twenty groups, blank to H, hold 91 tiles. */
  lemma MiddleGroupsTotal()
    ensures TotalCount(TILE_GROUPS[..20]) == 91
  {
    var g := TILE_GROUPS;
    FirstGroupsTotal();
    TotalSnoc(g, 13); TotalSnoc(g, 14); TotalSnoc(g, 15); TotalSnoc(g, 16);
    TotalSnoc(g, 17); TotalSnoc(g, 18); TotalSnoc(g, 19);
  }

  /** All 27 groups together hold 100 tiles. */
  lemma GroupsTotal()
    ensures TotalCount(TILE_GROUPS) == 100
  {
    var g := TILE_GROUPS;
    MiddleGroupsTotal();
    TotalSnoc(g, 20); TotalSnoc(g, 21); TotalSnoc(g, 22); TotalSnoc(g, 23);
    TotalSnoc(g, 24); TotalSnoc(g, 25); TotalSnoc(g, 26);
    assert g[..27] == g;
  }

  /** `get_starting_tiles` holds exactly 100 tiles. */
  lemma StartingTilesCount()
    ensures |StartingTiles()| == 100
  {
    GroupsTotal();
    JoinLength(TILE_GROUPS);
  }

  /** No character is listed in two groups. */
  lemma GroupsDistinct()
    ensures forall a, b :: 0 <= a < b < |TILE_GROUPS| ==> TILE_GROUPS[a].0 != TILE_GROUPS[b].0
  {
  }

  /** Each group's character occurs in the bag exactly its listed number of
      times. */
  lemma StartingTileCount(g: nat)
    requires g < |TILE_GROUPS|
    ensures multiset(StartingTiles())[TILE_GROUPS[g].0] == TILE_GROUPS[g].1
  {
    JoinCounts(TILE_GROUPS, TILE_GROUPS[g].0);
    GroupsDistinct();
    GroupsDistinctCount(TILE_GROUPS, g);
  }

  /** With distinct group characters, a character's count is its own group's. */
  lemma {:induction false} GroupsDistinctCount(groups: seq<(char, nat)>, g: nat)
    requires g < |groups|
    requires forall a, b :: 0 <= a < b < |groups| ==> groups[a].0 != groups[b].0
    ensures CountOf(groups, groups[g].0) == groups[g].1
  {
    var init := groups[..|groups| - 1];
    if g == |groups| - 1 {
      CountAbsent(init, groups[g].0);
    } else {
      GroupsDistinctCount(init, g);
    }
  }

  lemma {:induction false} CountAbsent(groups: seq<(char, nat)>, c: char)
    requires forall a :: 0 <= a < |groups| ==> groups[a].0 != c
    ensures CountOf(groups, c) == 0
  {
    if |groups| > 0 {
      CountAbsent(groups[..|groups| - 1], c);
    }
  }

  /** The characters of the groups, in order. */
  const KEY_CHARS: seq<char> := " EAIONRTLSUDGBCMPFHVWYKJXQZ"

  /** A sequence without repeats has as many distinct elements as entries. */
  lemma {:induction false} DistinctCard(s: seq<char>)
    requires forall a, b :: 0 <= a < b < |s| ==> s[a] != s[b]
    ensures |set c | c in s| == |s|
  {
    if |s| > 0 {
      var init := s[..|s| - 1];
      DistinctCard(init);
      assert (set c | c in s) == (set c | c in init) + {s[|s| - 1]};
    }
  }

  /** The map's keys are exactly the groups' characters, which are the
      blank and the capital letters. */
  lemma KeyChars()
    ensures forall c :: c in TILE_POINTS <==> c in KEY_CHARS
    ensures forall c :: c in KEY_CHARS <==> c == ' ' || 'A' <= c <= 'Z'
  {
    GroupChars();
    KeyCharsLetters();
  }

  /** The groups' characters are those of KEY_CHARS. */
  lemma GroupChars()
    ensures forall c :: c in TILE_POINTS <==> c in KEY_CHARS
  {
  }

  /** KEY_CHARS holds the blank and the capital letters. */
  lemma KeyCharsLetters()
    ensures forall c :: c in KEY_CHARS <==> c == ' ' || 'A' <= c <= 'Z'
  {
  }

  lemma KeyCharsDistinct()
    ensures forall a, b :: 0 <= a < b < |KEY_CHARS| ==> KEY_CHARS[a] != KEY_CHARS[b]
  {
  }

  /** The points map has the 26 capital letters and the blank as its keys. */
  lemma TilePointsKeys()
    ensures |StartingTilePoints().Keys| == 27
    ensures forall c :: c in StartingTilePoints() <==> c == ' ' || 'A' <= c <= 'Z'
  {
    KeyChars();
    assert StartingTilePoints().Keys == set c | c in KEY_CHARS;
    KeyCharsDistinct();
    DistinctCard(KEY_CHARS);
  }

  /** Every group's character has a point value. */
  lemma GroupsHavePoints()
    ensures forall g :: 0 <= g < |TILE_GROUPS| ==> TILE_GROUPS[g].0 in TILE_POINTS
  {
  }

  /** Every tile in the bag has a point value; the notable values. */
  lemma TilesHavePoints(i: nat)
    requires i < |StartingTiles()|
    ensures StartingTiles()[i] in StartingTilePoints()
    ensures StartingTilePoints()[' '] == 0 && StartingTilePoints()['K'] == 5
    ensures StartingTilePoints()['J'] == 8 && StartingTilePoints()['X'] == 8
    ensures StartingTilePoints()['Q'] == 10 && StartingTilePoints()['Z'] == 10
  {
    JoinChars(TILE_GROUPS, i);
    GroupsHavePoints();
    NotablePoints();
  }

  /** The blank scores nothing; K, J, X, Q and Z score the most. */
  lemma NotablePoints()
    ensures TILE_POINTS[' '] == 0 && TILE_POINTS['K'] == 5
    ensures TILE_POINTS['J'] == 8 && TILE_POINTS['X'] == 8
    ensures TILE_POINTS['Q'] == 10 && TILE_POINTS['Z'] == 10
  {
  }
}
