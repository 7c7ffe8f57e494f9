/** The word game of wurdle/src/lib.rs: the statistics kept across games
    (`Stats`), their ten-line text file, the colour each guessed letter gets
    and the rule that ends a game. */
module Wurdle {
  import opened Wrappers

  /** The largest `usize`, the type of every counter. */
  const USIZE_MAX: nat := 0xFFFF_FFFF_FFFF_FFFF

  // ---------------------------------------------------------------------
  // Statistics

  /** The ten counters of `Stats`, in the order `save` writes them. */
  datatype Counts = Counts(played: nat, won: nat, streak: nat, maxstreak: nat,
                           dist1: nat, dist2: nat, dist3: nat, dist4: nat, dist5: nat, dist6: nat)

  /** The statistics `read` makes when there is no file: all zero. */
  const ZERO := Counts(0, 0, 0, 0, 0, 0, 0, 0, 0, 0)

  /** `dist_k`: the games won on attempt k, for k from 1 to 6. */
  function Dist(v: Counts, k: nat): nat
    requires 1 <= k <= 6
  {
    if k == 1 then v.dist1 else if k == 2 then v.dist2 else if k == 3 then v.dist3
    else if k == 4 then v.dist4 else if k == 5 then v.dist5 else v.dist6
  }

  /** The sum of the six distribution counters. */
  function DistSum(v: Counts): nat {
    v.dist1 + v.dist2 + v.dist3 + v.dist4 + v.dist5 + v.dist6
  }

  /** The counters after `won(attempt)`. */
  function AfterWon(v: Counts, attempt: nat): Counts {
    var streak := v.streak + 1;
    var c := v.(won := v.won + 1, played := v.played + 1, streak := streak,
                maxstreak := if streak > v.maxstreak then streak else v.maxstreak);
    if attempt == 1 then c.(dist1 := c.dist1 + 1)
    else if attempt == 2 then c.(dist2 := c.dist2 + 1)
    else if attempt == 3 then c.(dist3 := c.dist3 + 1)
    else if attempt == 4 then c.(dist4 := c.dist4 + 1)
    else if attempt == 5 then c.(dist5 := c.dist5 + 1)
    else if attempt == 6 then c.(dist6 := c.dist6 + 1)
    else c
  }

  /** The counters after `lost()`. */
  function AfterLost(v: Counts): Counts {
    v.(streak := 0, played := v.played + 1)
  }

  /** A win counts one more game, one more win and one more in the streak;
      the best streak becomes the larger of itself and the new streak; of
      the distribution exactly the counter of the winning attempt grows,
      and none when the attempt is past six. */
  lemma WonCounts(v: Counts, attempt: nat)
    ensures var r := AfterWon(v, attempt);
      r.won == v.won + 1 && r.played == v.played + 1 && r.streak == v.streak + 1
      && r.maxstreak == (if v.streak + 1 > v.maxstreak then v.streak + 1 else v.maxstreak)
      && (forall k :: 1 <= k <= 6 ==> Dist(r, k) == Dist(v, k) + (if k == attempt then 1 else 0))
      && DistSum(r) == DistSum(v) + (if 1 <= attempt <= 6 then 1 else 0)
  {
  }

  /** A loss counts one more game and ends the streak; the wins, the best
      streak and the distribution stay. */
  lemma LostCounts(v: Counts)
    ensures var r := AfterLost(v);
      r.played == v.played + 1 && r.streak == 0
      && r.won == v.won && r.maxstreak == v.maxstreak
      && (forall k :: 1 <= k <= 6 ==> Dist(r, k) == Dist(v, k))
  {
  }

  /** The relations the counters keep: no more wins than games, the streak
      at most the best streak, the best streak at most the games, and no
      more recorded attempts than wins. */
  predicate Consistent(v: Counts) {
    v.won <= v.played && v.streak <= v.maxstreak && v.maxstreak <= v.played && DistSum(v) <= v.won
  }

  /** The zero statistics are consistent, and wins and losses keep them so:
      every sequence of games from a missing file stays consistent. */
  lemma ConsistentKept(v: Counts, attempt: nat)
    ensures Consistent(ZERO)
    ensures Consistent(v) ==> Consistent(AfterWon(v, attempt)) && Consistent(AfterLost(v))
  {
    WonCounts(v, attempt);
  }

  /** The end of a game: won on an attempt (counted from 1), or lost. */
  datatype End = WonOn(attempt: nat) | Lost

  /** The counters after a game ends. */
  function After(v: Counts, e: End): Counts {
    match e
    case WonOn(a) => AfterWon(v, a)
    case Lost => AfterLost(v)
  }

  /** The statistics as a mutable record, updated in place by `won` and
      `lost`. */
  class Stats {
    var played: nat
    var won: nat
    var streak: nat
    var maxstreak: nat
    var dist1: nat
    var dist2: nat
    var dist3: nat
    var dist4: nat
    var dist5: nat
    var dist6: nat

    function Value(): Counts
      reads this
    {
      Counts(played, won, streak, maxstreak, dist1, dist2, dist3, dist4, dist5, dist6)
    }

    /** A record holding the given counters. */
    constructor(v: Counts)
      ensures Value() == v
    {
      played, won, streak, maxstreak := v.played, v.won, v.streak, v.maxstreak;
      dist1, dist2, dist3, dist4, dist5, dist6 := v.dist1, v.dist2, v.dist3, v.dist4, v.dist5, v.dist6;
    }

    /** `won(attempt)`. */
    method Won(attempt: nat)
      modifies this
      ensures Value() == AfterWon(old(Value()), attempt)
    {
      won := won + 1;
      played := played + 1;
      streak := streak + 1;
      if streak > maxstreak {
        maxstreak := streak;
      }
      if attempt == 1 {
        dist1 := dist1 + 1;
      } else if attempt == 2 {
        dist2 := dist2 + 1;
      } else if attempt == 3 {
        dist3 := dist3 + 1;
      } else if attempt == 4 {
        dist4 := dist4 + 1;
      } else if attempt == 5 {
        dist5 := dist5 + 1;
      } else if attempt == 6 {
        dist6 := dist6 + 1;
      }
    }

    /** `lost()`. */
    method Lost()
      modifies this
      ensures Value() == AfterLost(old(Value()))
    {
      streak := 0;
      played := played + 1;
    }

    /** The end-of-game bookkeeping, with the save after the update for
        both outcomes: the saved counters are the counters after the game. */
    method Finish(e: End) returns (saved: Counts)
      modifies this
      ensures Value() == After(old(Value()), e)
      ensures saved == Value()
    {
      match e {
        case WonOn(a) => Won(a);
        case Lost => Lost();
      }
      saved := Value();
    }
  }

  /** The counters the file holds after a game ends, with the calls in the
      order the game loop makes them: `won` then `save` after a win, but
      `save` then `lost` after a loss. */
  function SavedAsWritten(v: Counts, e: End): Counts {
    match e
    case WonOn(a) => AfterWon(v, a)
    case Lost => v
  }

  /** As written, a loss never reaches the file: the saved counters are the
      ones from before the game, though the game was counted in memory. */
  lemma AsWrittenLossUnsaved(v: Counts)
    ensures SavedAsWritten(v, Lost) == v
    ensures SavedAsWritten(v, Lost) != After(v, Lost)
  {
  }

  // ---------------------------------------------------------------------
  // The statistics file

  /** The character of a decimal digit. */
  function DigitChar(d: nat): (c: char)
    requires d < 10
    ensures '0' <= c <= '9'
  {
    (48 + d) as char
  }

  predicate IsDigit(c: char) { '0' <= c <= '9' }

  predicate AllDigits(s: string) { forall i :: 0 <= i < |s| ==> IsDigit(s[i]) }

  /** `Display` of a `usize`: its decimal digits, without leading zeros. */
  function ShowNat(n: nat): (s: string)
    ensures |s| >= 1 && AllDigits(s)
    ensures n >= 10 ==> s[0] != '0'
    decreases n
  {
    if n < 10 then [DigitChar(n)] else ShowNat(n / 10) + [DigitChar(n % 10)]
  }

  /** The value of a string of decimal digits. */
  function DigitsValue(s: string): nat
    requires AllDigits(s)
    decreases |s|
  {
    if s == [] then 0 else 10 * DigitsValue(s[..|s| - 1]) + (s[|s| - 1] as int - 48)
  }

  /** Reading back the digits of a number gives the number. */
  lemma {:induction false} DigitsOfShow(n: nat)
    ensures DigitsValue(ShowNat(n)) == n
    decreases n
  {
    if n >= 10 {
      DigitsOfShow(n / 10);
      assert ShowNat(n)[..|ShowNat(n)| - 1] == ShowNat(n / 10);
    }
  }

  /** `str::parse::<usize>`: an optional `+`, then one or more decimal
      digits, of value at most `usize::MAX`; `None` for anything else. */
  function ParseUsize(s: string): (r: Option<nat>)
    ensures r.Some? ==> r.value <= USIZE_MAX
  {
    var t := if |s| > 0 && s[0] == '+' then s[1..] else s;
    if t == [] || !AllDigits(t) then None
    else if DigitsValue(t) <= USIZE_MAX then Some(DigitsValue(t))
    else None
  }

  /** Parsing what `Display` writes gives the number back. */
  lemma ParseShow(n: nat)
    requires n <= USIZE_MAX
    ensures ParseUsize(ShowNat(n)) == Some(n)
  {
    DigitsOfShow(n);
    assert ShowNat(n)[0] != '+';
  }

  /** `str::split("\n")`: the pieces between line feeds, empty ones
      included; a text without line feeds is one piece. */
  function Split(s: string): (r: seq<string>)
    ensures |r| >= 1
    decreases |s|
  {
    if s == [] then [""]
    else
      var rest := Split(s[1..]);
      if s[0] == '\n' then [""] + rest else [[s[0]] + rest[0]] + rest[1..]
  }

  /** A piece without line feeds followed by a line feed splits off. */
  lemma {:induction false} SplitFront(a: string, b: string)
    requires forall i :: 0 <= i < |a| ==> a[i] != '\n'
    ensures Split(a + "\n" + b) == [a] + Split(b)
    decreases |a|
  {
    if a == [] {
      assert a + "\n" + b == ['\n'] + b;
      assert (['\n'] + b)[1..] == b;
    } else {
      SplitFront(a[1..], b);
      assert (a + "\n" + b)[1..] == a[1..] + "\n" + b;
      assert [a[0]] + a[1..] == a;
    }
  }

  /** A text without line feeds is one piece. */
  lemma {:induction false} SplitNone(a: string)
    requires forall i :: 0 <= i < |a| ==> a[i] != '\n'
    ensures Split(a) == [a]
    decreases |a|
  {
    if a != [] {
      SplitNone(a[1..]);
      assert [a[0]] + a[1..] == a;
    }
  }

  /** The ten counters in file order. */
  function Fields(v: Counts): (f: seq<nat>)
    ensures |f| == 10
  {
    [v.played, v.won, v.streak, v.maxstreak, v.dist1, v.dist2, v.dist3, v.dist4, v.dist5, v.dist6]
  }

  /** Numbers written one per line, without a final line feed. */
  function Lines(ns: seq<nat>): string
    requires |ns| >= 1
    decreases |ns|
  {
    if |ns| == 1 then ShowNat(ns[0]) else ShowNat(ns[0]) + "\n" + Lines(ns[1..])
  }

  /** Splitting numbers written one per line gives each number's digits. */
  lemma {:induction false} SplitLines(ns: seq<nat>)
    requires |ns| >= 1
    ensures Split(Lines(ns)) == seq(|ns|, i requires 0 <= i < |ns| => ShowNat(ns[i]))
    decreases |ns|
  {
    DigitsHaveNoLineFeed(ns[0]);
    if |ns| == 1 {
      SplitNone(ShowNat(ns[0]));
    } else {
      SplitLines(ns[1..]);
      SplitFront(ShowNat(ns[0]), Lines(ns[1..]));
    }
  }

  lemma DigitsHaveNoLineFeed(n: nat)
    ensures forall i :: 0 <= i < |ShowNat(n)| ==> ShowNat(n)[i] != '\n'
  {
  }

  /** `save`'s text: the ten counters, one per line. */
  function Text(v: Counts): string {
    Lines(Fields(v))
  }

  /** Whether every counter fits a `usize`. */
  predicate Fits(v: Counts) {
    v.played <= USIZE_MAX && v.won <= USIZE_MAX && v.streak <= USIZE_MAX && v.maxstreak <= USIZE_MAX
    && v.dist1 <= USIZE_MAX && v.dist2 <= USIZE_MAX && v.dist3 <= USIZE_MAX
    && v.dist4 <= USIZE_MAX && v.dist5 <= USIZE_MAX && v.dist6 <= USIZE_MAX
  }

  /** Each line parsed in order; `None` at the first that is not a
      `usize`. */
  function ParseAll(lines: seq<string>): (r: Option<seq<nat>>)
    ensures r.Some? ==> |r.value| == |lines| && forall i :: 0 <= i < |lines| ==> ParseUsize(lines[i]) == Some(r.value[i])
    ensures r.None? ==> exists i :: 0 <= i < |lines| && ParseUsize(lines[i]).None?
  {
    var parsed := seq(|lines|, i requires 0 <= i < |lines| => ParseUsize(lines[i]));
    Unwrapped(parsed)
  }

  /** All the values of a sequence of options, or `None` when one is
      missing. */
  function Unwrapped(os: seq<Option<nat>>): (r: Option<seq<nat>>)
    ensures r.Some? ==> |r.value| == |os| && forall i :: 0 <= i < |os| ==> os[i] == Some(r.value[i])
    ensures r.None? ==> exists i :: 0 <= i < |os| && os[i].None?
  {
    if os == [] then Some([])
    else
      var rest := Unwrapped(os[1..]);
      if os[0].None? then None
      else if rest.None? then
        var j :| 0 <= j < |os[1..]| && os[1..][j].None?;
        assert os[j + 1].None?;
        None
      else Some([os[0].value] + rest.value)
  }

  /** The counters from ten numbers in file order. */
  function CountsOf(f: seq<nat>): (v: Counts)
    requires |f| == 10
    ensures Fields(v) == f
  {
    Counts(f[0], f[1], f[2], f[3], f[4], f[5], f[6], f[7], f[8], f[9])
  }

  /** `read`: the zero statistics when there is no file; otherwise the first
      ten lines parsed in order, `None` where the source panics (fewer than
      ten lines, or a line that is not a `usize`). Lines past the tenth are
      ignored. */
  function Read(file: Option<string>): (r: Option<Counts>)
  {
    if file.None? then Some(ZERO)
    else
      var lines := Split(file.value);
      if |lines| < 10 then None
      else
        match ParseAll(lines[..10])
        case None => None
        case Some(f) => Some(CountsOf(f))
  }

  /** What `read` accepts: no file, or a file whose first ten lines are
      `usize`s, which become the counters in order. */
  lemma ReadAccepts(file: Option<string>)
    ensures Read(file).Some? <==> (file.None? ||
      (|Split(file.value)| >= 10 && forall i :: 0 <= i < 10 ==> ParseUsize(Split(file.value)[i]).Some?))
    ensures file.Some? && Read(file).Some? ==>
      forall i :: 0 <= i < 10 ==> ParseUsize(Split(file.value)[i]) == Some(Fields(Read(file).value)[i])
  {
    if file.Some? && |Split(file.value)| >= 10 {
      var lines := Split(file.value)[..10];
      assert forall i :: 0 <= i < 10 ==> lines[i] == Split(file.value)[i];
      if ParseAll(lines).Some? {
        var f := ParseAll(lines).value;
        assert Fields(CountsOf(f)) == f;
      }
    }
  }

  /** Reading the text `save` writes gives the statistics back. */
  lemma ReadText(v: Counts)
    requires Fits(v)
    ensures Read(Some(Text(v))) == Some(v)
  {
    var f := Fields(v);
    SplitLines(f);
    var lines := Split(Text(v));
    forall i | 0 <= i < 10
      ensures ParseUsize(lines[..10][i]) == Some(f[i])
    {
      ParseShow(f[i]);
    }
    ParseAllSome(lines[..10], f);
    assert CountsOf(f) == v;
  }

  /** Lines that all parse give their values. */
  lemma ParseAllSome(lines: seq<string>, f: seq<nat>)
    requires |lines| == |f|
    requires forall i :: 0 <= i < |lines| ==> ParseUsize(lines[i]) == Some(f[i])
    ensures ParseAll(lines) == Some(f)
  {
    assert ParseAll(lines).Some?;
    var r := ParseAll(lines).value;
    assert forall i :: 0 <= i < |lines| ==> r[i] == f[i];
    assert r == f;
  }

  /** The file after `save` as written: the file is opened for writing
      without truncation, so a shorter text leaves the old file's tail in
      place. */
  function SaveAsWritten(file: Option<string>, v: Counts): string {
    var text := Text(v);
    if file.None? || |file.value| <= |text| then text
    else text + file.value[|text|..]
  }

  /** One more digit after a number's digits: the number times ten plus the
      digit. */
  lemma ShowAppend(n: nat, d: nat)
    requires n >= 1 && d < 10
    ensures ShowNat(10 * n + d) == ShowNat(n) + [DigitChar(d)]
  {
    assert (10 * n + d) / 10 == n && (10 * n + d) % 10 == d;
  }

  /** A digit after numbers written one per line extends the last number. */
  lemma {:induction false} LinesAppend(ns: seq<nat>, d: nat)
    requires |ns| >= 1 && ns[|ns| - 1] >= 1 && d < 10
    ensures Lines(ns) + [DigitChar(d)] == Lines(ns[|ns| - 1 := 10 * ns[|ns| - 1] + d])
    decreases |ns|
  {
    var ms := ns[|ns| - 1 := 10 * ns[|ns| - 1] + d];
    if |ns| == 1 {
      ShowAppend(ns[0], d);
    } else {
      LinesAppend(ns[1..], d);
      assert ms[1..] == ns[1..][|ns| - 2 := 10 * ns[|ns| - 1] + d];
    }
  }

  /** The total number of digits of some numbers. */
  function DigitCount(ns: seq<nat>): nat {
    if ns == [] then 0 else |ShowNat(ns[0])| + DigitCount(ns[1..])
  }

  /** Numbers written one per line take their digits and a line feed
      between each two. */
  lemma {:induction false} LinesLength(ns: seq<nat>)
    requires |ns| >= 1
    ensures |Lines(ns)| == DigitCount(ns) + |ns| - 1
    decreases |ns|
  {
    if |ns| > 1 {
      LinesLength(ns[1..]);
    }
  }

  /** The length of the text: each counter's digits and nine line feeds. */
  lemma TextLength(v: Counts)
    ensures |Text(v)| == |ShowNat(v.played)| + |ShowNat(v.won)| + |ShowNat(v.streak)| + |ShowNat(v.maxstreak)|
      + |ShowNat(v.dist1)| + |ShowNat(v.dist2)| + |ShowNat(v.dist3)| + |ShowNat(v.dist4)|
      + |ShowNat(v.dist5)| + |ShowNat(v.dist6)| + 9
  {
    var f := Fields(v);
    LinesLength(f);
    assert DigitCount(f[9..]) == |ShowNat(v.dist6)|;
    assert DigitCount(f[8..]) == |ShowNat(v.dist5)| + DigitCount(f[9..]);
    assert DigitCount(f[7..]) == |ShowNat(v.dist4)| + DigitCount(f[8..]);
    assert DigitCount(f[6..]) == |ShowNat(v.dist3)| + DigitCount(f[7..]);
    assert DigitCount(f[5..]) == |ShowNat(v.dist2)| + DigitCount(f[6..]);
    assert DigitCount(f[4..]) == |ShowNat(v.dist1)| + DigitCount(f[5..]);
    assert DigitCount(f[3..]) == |ShowNat(v.maxstreak)| + DigitCount(f[4..]);
    assert DigitCount(f[2..]) == |ShowNat(v.streak)| + DigitCount(f[3..]);
    assert DigitCount(f[1..]) == |ShowNat(v.won)| + DigitCount(f[2..]);
  }

  /** Numbers below a hundred take one digit below ten and two above. */
  lemma ShowLength(n: nat)
    requires n < 100
    ensures |ShowNat(n)| == if n < 10 then 1 else 2
  {
  }

  /** A digit after the text extends the last counter, `dist_6`. */
  lemma TextAppend(v: Counts, d: nat)
    requires v.dist6 >= 1 && d < 10
    ensures Text(v) + [DigitChar(d)] == Text(v.(dist6 := 10 * v.dist6 + d))
  {
    LinesAppend(Fields(v), d);
    assert Fields(v)[9 := 10 * v.dist6 + d] == Fields(v.(dist6 := 10 * v.dist6 + d));
  }

  /** As written, a save over an old file one character longer than the new
      text keeps that last character. */
  lemma SaveOverLonger(t: string, c: char, v: Counts)
    requires |t| == |Text(v)|
    ensures SaveAsWritten(Some(t + [c]), v) == Text(v) + [c]
  {
    assert (t + [c])[|Text(v)|..] == [c];
  }

  /** As written, a save whose new text is one character shorter than the
      old text keeps the old text's last character: when the old `dist_6`
      ends in the digit d, the new text gains that digit. */
  lemma StaleTail(shorter: Counts, d: nat, now: Counts)
    requires shorter.dist6 >= 1 && d < 10
    requires |Text(shorter)| == |Text(now)|
    ensures SaveAsWritten(Some(Text(shorter.(dist6 := 10 * shorter.dist6 + d))), now) == Text(now) + [DigitChar(d)]
  {
    TextAppend(shorter, d);
    SaveOverLonger(Text(shorter), DigitChar(d), now);
  }

  /** The example's text after the loss is as long as the old text without
      its final '0'. */
  lemma SameLength(shorter: Counts, now: Counts)
    requires shorter == Counts(10, 10, 10, 10, 0, 0, 0, 0, 0, 1)
    requires now == Counts(11, 10, 0, 10, 0, 0, 0, 0, 0, 10)
    ensures |Text(shorter)| == |Text(now)|
  {
    TextLength(shorter);
    TextLength(now);
    ShowLength(0);
    ShowLength(1);
    ShowLength(10);
    ShowLength(11);
  }

  /** As written, when the new text is one character shorter than the old
      one, the old file's last digit d stays behind and becomes part of
      `dist_6`: the file reads back with `dist_6` ten times too large plus
      d, not as the counters just saved. */
  lemma AsWrittenSaveKeepsTail(shorter: Counts, d: nat, now: Counts)
    requires shorter.dist6 >= 1 && now.dist6 >= 1 && d < 10
    requires |Text(shorter)| == |Text(now)|
    requires Fits(now.(dist6 := 10 * now.dist6 + d))
    ensures var saved := SaveAsWritten(Some(Text(shorter.(dist6 := 10 * shorter.dist6 + d))), now);
      Read(Some(saved)) == Some(now.(dist6 := 10 * now.dist6 + d)) && Read(Some(saved)) != Some(now)
  {
    StaleTail(shorter, d, now);
    TextAppend(now, d);
    ReadText(now.(dist6 := 10 * now.dist6 + d));
  }

  /** An instance: ten games played and won in a row, ten of them on the
      sixth attempt, then a loss. The save at the loss still writes the
      counters from before it; the next save (a redraw before the player
      answers, or the next game's) writes the counters after the loss. Their
      streak has one digit where the old one had two while `played` keeps
      two, so that text is one character shorter than the file, and the file
      reads back with `dist_6` of 100. */
  lemma LossAfterStreakOfTen(before: Counts)
    requires before == Counts(10, 10, 10, 10, 0, 0, 0, 0, 0, 10)
    ensures var now := AfterLost(before);
      var shorter := before.(dist6 := 1);
      before == shorter.(dist6 := 10 * shorter.dist6 + 0)
      && |Text(shorter)| == |Text(now)|
      && now.dist6 == 10 && Fits(now.(dist6 := 100))
  {
    SameLength(before.(dist6 := 1), AfterLost(before));
  }

  /** The file after `save` as intended: exactly the new text. */
  function Save(file: Option<string>, v: Counts): (text: string)
    ensures Fits(v) ==> Read(Some(text)) == Some(v)
  {
    ReadTextIfFits(v);
    Text(v)
  }

  lemma ReadTextIfFits(v: Counts)
    ensures Fits(v) ==> Read(Some(Text(v))) == Some(v)
  {
    if Fits(v) {
      ReadText(v);
    }
  }

  // ---------------------------------------------------------------------
  // Letters and the end of a game

  /** The colour a guessed letter gets. */
  datatype Mark = Correct | Misplaced | Absent

  /** The letter at position i of a guess: green when the word has it at
      the same position, yellow when the word has it elsewhere, plain
      otherwise. */
  function MarkOf(c: char, i: nat, word: string): (m: Mark)
    requires i < |word|
    ensures m == Correct <==> c == word[i]
    ensures m == Misplaced <==> c != word[i] && c in word
    ensures m == Absent <==> c !in word
  {
    if c == word[i] then Correct
    else if c in word then Misplaced
    else Absent
  }

  /** The marks of a guess; letters past the word's length get none. */
  function Feedback(guess: string, word: string): (r: seq<Mark>)
    ensures |r| == if |guess| < |word| then |guess| else |word|
  {
    var n := if |guess| < |word| then |guess| else |word|;
    seq(n, i requires 0 <= i < n => MarkOf(guess[i], i, word))
  }

  /** Every letter of a guess of the word's length is green exactly when
      the guess is the word. */
  lemma AllCorrectIffWord(guess: string, word: string)
    requires |guess| == |word|
    ensures (forall i :: 0 <= i < |word| ==> Feedback(guess, word)[i] == Correct) <==> guess == word
  {
    if forall i :: 0 <= i < |word| ==> Feedback(guess, word)[i] == Correct {
      forall i | 0 <= i < |word|
        ensures guess[i] == word[i]
      {
        assert Feedback(guess, word)[i] == Correct;
      }
    }
  }

  /** The letters of a guess that got mark m. */
  function Letters(guess: string, word: string, m: Mark): set<char> {
    var f := Feedback(guess, word);
    set i | 0 <= i < |f| && f[i] == m :: guess[i]
  }

  /** The marking loop of one guess: each letter, up to the word's length,
      is added to the set of its colour. */
  method MarkLetters(guess: string, word: string, correct: set<char>, misplaced: set<char>, used: set<char>)
    returns (correct': set<char>, misplaced': set<char>, used': set<char>)
    ensures correct' == correct + Letters(guess, word, Correct)
    ensures misplaced' == misplaced + Letters(guess, word, Misplaced)
    ensures used' == used + Letters(guess, word, Absent)
  {
    correct', misplaced', used' := correct, misplaced, used;
    ghost var f := Feedback(guess, word);
    var i := 0;
    while i < |guess|
      invariant i <= |guess|
      invariant i <= |f|
      invariant correct' == correct + (set j | 0 <= j < i && f[j] == Correct :: guess[j])
      invariant misplaced' == misplaced + (set j | 0 <= j < i && f[j] == Misplaced :: guess[j])
      invariant used' == used + (set j | 0 <= j < i && f[j] == Absent :: guess[j])
    {
      if i >= |word| {
        break;
      }
      var c := guess[i];
      if c == word[i] {
        correct' := correct' + {c};
      } else if c in word {
        misplaced' := misplaced' + {c};
      } else {
        used' := used' + {c};
      }
      i := i + 1;
    }
    assert i == |f|;
  }

  /** The colour of a key of the on-screen keyboard. */
  datatype KeyColor = Green | Yellow | Plain | White

  /** Green before yellow before plain; plain also for the spaces and, when
      a set of available letters is given, for the letters outside it;
      white for the rest. */
  function ColorOfKey(c: char, correct: set<char>, misplaced: set<char>, used: set<char>,
                      available: set<char>): (r: KeyColor)
    ensures r == Green <==> c in correct
    ensures r == Yellow <==> c !in correct && c in misplaced
    ensures r == White <==>
      c !in correct && c !in misplaced && c !in used && c != ' ' && (available == {} || c in available)
  {
    if c in correct then Green
    else if c in misplaced then Yellow
    else if c in used || c == ' ' || (available != {} && c !in available) then Plain
    else White
  }

  /** After the winning guess is marked, every letter of the word shows
      green on the keyboard. */
  lemma WinningGuessGreen(word: string, correct: set<char>, misplaced: set<char>, used: set<char>,
                          available: set<char>, c: char)
    requires c in word
    ensures ColorOfKey(c, correct + Letters(word, word, Correct), misplaced, used, available) == Green
  {
    var i :| 0 <= i < |word| && word[i] == c;
    assert Feedback(word, word)[i] == Correct;
  }

  /** The check at the top of each redraw: a last attempt that is not in
      the word list is dropped, and the "not a word" message is flagged. */
  function Admit(attempts: seq<string>, words: set<string>): (r: (seq<string>, bool))
    ensures r.1 <==> attempts != [] && attempts[|attempts| - 1] !in words
    ensures r.0 <= attempts && |attempts| - 1 <= |r.0|
    ensures !r.1 ==> r.0 == attempts
  {
    if attempts != [] && attempts[|attempts| - 1] !in words then (attempts[..|attempts| - 1], true)
    else (attempts, false)
  }

  predicate AllWords(attempts: seq<string>, words: set<string>) {
    forall i :: 0 <= i < |attempts| ==> attempts[i] in words
  }

  /** The attempts kept are words: when all but a newly entered guess are
      words, after the check all of them are, and a guess that is a word
      is kept. */
  lemma AdmitKeepsWords(attempts: seq<string>, guess: string, words: set<string>)
    requires AllWords(attempts, words)
    ensures AllWords(Admit(attempts + [guess], words).0, words)
    ensures guess in words <==> Admit(attempts + [guess], words).0 == attempts + [guess]
  {
    var r := Admit(attempts + [guess], words);
    if guess !in words {
      assert r.0 == attempts;
      assert |r.0| < |attempts + [guess]|;
    }
  }

  /** The end a guess brings about: the guess is the word, which wins on
      this attempt (counted from 1); or it was the last of `tries`, which
      loses; or neither. */
  function Verdict(guess: string, word: string, attempt: nat, tries: nat): (r: Option<End>)
    ensures r == Some(WonOn(attempt + 1)) <==> guess == word
    ensures r == Some(Lost) <==> guess != word && attempt + 1 == tries
  {
    if guess == word then Some(WonOn(attempt + 1))
    else if attempt + 1 == tries then Some(Lost)
    else None
  }

  /** The ends the scan over the attempts meets, in order. */
  function Ends(attempts: seq<string>, word: string, tries: nat, n: nat): seq<End>
    requires n <= |attempts|
    decreases n
  {
    if n == 0 then []
    else
      var before := Ends(attempts, word, tries, n - 1);
      var v := Verdict(attempts[n - 1], word, n - 1, tries);
      if v.Some? then before + [v.value] else before
  }

  /** The scan of the game loop over the attempts made so far, up to
      `tries`: marks each guess's letters and collects the ends it meets. */
  method Scan(attempts: seq<string>, word: string, tries: nat,
              correct: set<char>, misplaced: set<char>, used: set<char>)
    returns (ends: seq<End>, correct': set<char>, misplaced': set<char>, used': set<char>)
    ensures var n := if |attempts| < tries then |attempts| else tries;
      ends == Ends(attempts, word, tries, n)
    ensures forall c :: c in correct' <==>
      c in correct || exists i :: 0 <= i < |attempts| && i < tries && c in Letters(attempts[i], word, Correct)
    ensures forall c :: c in misplaced' <==>
      c in misplaced || exists i :: 0 <= i < |attempts| && i < tries && c in Letters(attempts[i], word, Misplaced)
    ensures forall c :: c in used' <==>
      c in used || exists i :: 0 <= i < |attempts| && i < tries && c in Letters(attempts[i], word, Absent)
  {
    ends := [];
    correct', misplaced', used' := correct, misplaced, used;
    var attempt := 0;
    while attempt < tries
      invariant attempt <= tries
      invariant ends == Ends(attempts, word, tries, if attempt < |attempts| then attempt else |attempts|)
      invariant forall c :: c in correct' <==>
        c in correct || exists i :: 0 <= i < |attempts| && i < attempt && c in Letters(attempts[i], word, Correct)
      invariant forall c :: c in misplaced' <==>
        c in misplaced || exists i :: 0 <= i < |attempts| && i < attempt && c in Letters(attempts[i], word, Misplaced)
      invariant forall c :: c in used' <==>
        c in used || exists i :: 0 <= i < |attempts| && i < attempt && c in Letters(attempts[i], word, Absent)
    {
      if attempt < |attempts| {
        var a := attempts[attempt];
        correct', misplaced', used' := MarkLetters(a, word, correct', misplaced', used');
        var v := Verdict(a, word, attempt, tries);
        if v.Some? {
          ends := ends + [v.value];
        }
      }
      attempt := attempt + 1;
    }
  }

  /** A game in progress: no more attempts than tries, and no attempt but
      possibly the last one is the word (play stops at the first win). */
  predicate InPlay(attempts: seq<string>, word: string, tries: nat) {
    |attempts| <= tries && forall i :: 0 <= i < |attempts| - 1 ==> attempts[i] != word
  }

  /** The game-over rule: during play the scan meets at most one end: a win
      on the last attempt when it is the word, otherwise a loss when all
      tries are used, otherwise none. */
  lemma {:induction false} GameOverRule(attempts: seq<string>, word: string, tries: nat)
    requires InPlay(attempts, word, tries)
    ensures Ends(attempts, word, tries, |attempts|) ==
      if |attempts| > 0 && attempts[|attempts| - 1] == word then [WonOn(|attempts|)]
      else if |attempts| > 0 && |attempts| == tries then [Lost]
      else []
  {
    if |attempts| > 0 {
      NoEndBefore(attempts, word, tries, |attempts| - 1);
    }
  }

  /** Before the last attempt of a game in progress nothing ends. */
  lemma {:induction false} NoEndBefore(attempts: seq<string>, word: string, tries: nat, n: nat)
    requires InPlay(attempts, word, tries) && n < |attempts| && n <= |attempts| - 1
    ensures Ends(attempts, word, tries, n) == []
    decreases n
  {
    if n > 0 {
      NoEndBefore(attempts, word, tries, n - 1);
    }
  }
}
