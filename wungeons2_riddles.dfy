/** `get_riddles_list` (wungeons2/src/riddles.rs) as a function of the text of
    the embedded CSV file: one (riddle, answer) pair per line. A line
    without a comma makes the source panic; here the whole list is `None`. */
module Riddles {
  import opened Wrappers

  /** Lines ended by `'\n'`; text after the last `'\n'` is a final line when
      non-empty (`str::split_terminator("\n")`). */
  function SplitTerminator(s: string): (lines: seq<string>)
    ensures forall i :: 0 <= i < |lines| ==> '\n' !in lines[i]
    ensures |s| == 0 ==> lines == []
  {
    if |s| == 0 then []
    else
      var k := FirstNewline(s);
      if k == |s| then [s]
      else [s[..k]] + SplitTerminator(s[k + 1..])
  }

  /** The index of the first `'\n'` in s, or |s| when there is none. */
  function FirstNewline(s: string): (k: nat)
    ensures k <= |s|
    ensures forall i :: 0 <= i < k ==> s[i] != '\n'
    ensures k < |s| ==> s[k] == '\n'
  {
    if |s| == 0 || s[0] == '\n' then 0 else 1 + FirstNewline(s[1..])
  }

  /** Each line followed by `'\n'`. */
  function Terminated(lines: seq<string>): string {
    if |lines| == 0 then "" else lines[0] + "\n" + Terminated(lines[1..])
  }

  /** The index of the last comma of s, if any (`rsplit_once(',')`). */
  function LastComma(s: string): (r: Option<nat>)
    ensures r.Some? ==> r.value < |s| && s[r.value] == ','
    ensures r.Some? ==> forall i :: r.value < i < |s| ==> s[i] != ','
    ensures r.None? <==> ',' !in s
  {
    if |s| == 0 then None
    else if s[|s| - 1] == ',' then Some(|s| - 1)
    else LastComma(s[..|s| - 1])
  }

  /** `str::replace("\"", "")`. */
  function RemoveQuotes(s: string): (r: string)
    ensures '"' !in r
    ensures |r| <= |s|
  {
    if |s| == 0 then ""
    else (if s[0] == '"' then "" else [s[0]]) + RemoveQuotes(s[1..])
  }

  /** One line split at its last comma, quotes removed from the riddle. */
  function ParseLine(line: string): (r: Option<(string, string)>)
    ensures r.None? <==> ',' !in line
  {
    match LastComma(line)
    case None => None
    case Some(k) => Some((RemoveQuotes(line[..k]), line[k + 1..]))
  }

  /** `get_riddles_list`, with `None` where a line has no comma. */
  function GetRiddlesList(csv: string): (r: Option<seq<(string, string)>>)
  {
    ParseLines(SplitTerminator(csv))
  }

  function ParseLines(lines: seq<string>): (r: Option<seq<(string, string)>>)
    ensures r.Some? ==> |r.value| == |lines|
    ensures r.None? <==> exists i :: 0 <= i < |lines| && ',' !in lines[i]
    ensures r.Some? ==> forall i :: 0 <= i < |lines| ==> ParseLine(lines[i]) == Some(r.value[i])
  {
    if |lines| == 0 then Some([])
    else
      match ParseLine(lines[0])
      case None => None
      case Some(pair) =>
        match ParseLines(lines[1..])
        case None => None
        case Some(rest) => Some([pair] + rest)
  }

  /** Splitting and re-terminating gives back the text when it ends with a
      newline or is empty, so no trailing empty line is produced. */
  lemma {:induction false} SplitTerminatorRoundTrip(s: string)
    requires |s| == 0 || s[|s| - 1] == '\n'
    ensures Terminated(SplitTerminator(s)) == s
  {
    if |s| > 0 {
      var k := FirstNewline(s);
      var rest := s[k + 1..];
      if |rest| > 0 {
        assert rest[|rest| - 1] == s[|s| - 1];
      }
      SplitTerminatorRoundTrip(rest);
      TerminatedCons(s[..k], SplitTerminator(rest));
      Rejoin(s, k);
    }
  }

  lemma TerminatedCons(a: string, lines: seq<string>)
    ensures Terminated([a] + lines) == a + "\n" + Terminated(lines)
  {
    assert ([a] + lines)[1..] == lines;
  }

  /** A text is its part before a line feed, the line feed and its part after. */
  lemma Rejoin(s: string, k: nat)
    requires k < |s| && s[k] == '\n'
    ensures s[..k] + "\n" + s[k + 1..] == s
  {
  }

  /** A text without a trailing newline ends with an unterminated last line. */
  lemma {:induction false} SplitTerminatorLastLine(s: string)
    requires |s| > 0 && s[|s| - 1] != '\n'
    ensures |SplitTerminator(s)| > 0
    ensures Terminated(SplitTerminator(s)[..|SplitTerminator(s)| - 1]) + SplitTerminator(s)[|SplitTerminator(s)| - 1] == s
  {
    var k := FirstNewline(s);
    if k < |s| {
      var rest := s[k + 1..];
      assert rest[|rest| - 1] == s[|s| - 1];
      SplitTerminatorLastLine(rest);
      var tail := SplitTerminator(rest);
      var lines := [s[..k]] + tail;
      assert SplitTerminator(s) == lines;
      assert lines[..|lines| - 1] == [s[..k]] + tail[..|tail| - 1];
      TerminatedCons(s[..k], tail[..|tail| - 1]);
      Rejoin(s, k);
    } else {
      assert SplitTerminator(s) == [s];
    }
  }

  /** Each pair is its line split at the last comma: the answer holds no
      comma, the riddle no quote, and the answer is the line's tail unchanged. */
  lemma ParsedPair(line: string)
    requires ParseLine(line).Some?
    ensures var (riddle, answer) := ParseLine(line).value;
      ',' !in answer && '"' !in riddle &&
      exists k :: 0 <= k < |line| && line[k] == ',' && answer == line[k + 1..] && riddle == RemoveQuotes(line[..k])
  {
    var k := LastComma(line).value;
    var answer := line[k + 1..];
    assert forall i :: 0 <= i < |answer| ==> answer[i] == line[k + 1 + i];
  }

  /** Removing quotes changes nothing in a text without them, and removes all
      of them otherwise. */
  lemma {:induction false} RemoveQuotesIdentity(s: string)
    requires '"' !in s
    ensures RemoveQuotes(s) == s
  {
    if |s| > 0 {
      RemoveQuotesIdentity(s[1..]);
    }
  }
}
