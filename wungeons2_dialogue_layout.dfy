/** The text layout of the `dialogue` system (wungeons2/src/dialogue.rs:34-113):
    where each character of a dialogue's text and options goes, relative to
    the dialogue's position, and what it renders as. */
module DialogueLayout {
  import opened Wrappers
  import opened Colors
  import opened Components

  /** One character cell: its offset from the dialogue's position and its
      `Render` component. */
  datatype Glyph = Glyph(dx: int, dy: int, render: Component)

  /** Cells laid out so far and the cursor after them. */
  datatype Laid = Laid(glyphs: seq<Glyph>, x: int, y: int)

  type ColorPair = Option<(Option<Rgba>, Option<Rgba>)>

  /** The colour pairs the layout accepts: none at all, or exactly one of
      foreground and background. */
  predicate ColorOk(color: ColorPair) {
    color.None? || (color.value.0.Some? != color.value.1.Some?)
  }

  /** The colour a text character is drawn in. */
  function TextColor(color: ColorPair): Rgba
    requires ColorOk(color)
  {
    if color.None? then WHITE
    else if color.value.0.Some? then color.value.0.value
    else color.value.1.value
  }

  /** The `Render` component of a text character: `None` for the colour
      pairs the source leaves as `todo!()`. */
  function CharRender(c: char, color: ColorPair): (r: Option<Component>)
    ensures r.Some? <==> ColorOk(color)
    ensures color.None? ==> r == Some(Render(Some(([c], WHITE))))
    ensures color.Some? && color.value.0.Some? && color.value.1.None? ==> r == Some(Render(Some(([c], color.value.0.value))))
    ensures color.Some? && color.value.0.None? && color.value.1.Some? ==> r == Some(Render(Some(([c], color.value.1.value))))
  {
    match color
    case Some((Some(fg), None)) => Some(Render(Some(([c], fg))))
    case Some((None, Some(bg))) => Some(Render(Some(([c], bg))))
    case None => Some(Render(Some(([c], WHITE))))
    case _ => None
  }

  /** Cells `acc` in front of a layout that did not fail. */
  function Prepend(acc: seq<Glyph>, r: Option<Laid>): Option<Laid> {
    if r.None? then None else Some(Laid(acc + r.value.glyphs, r.value.x, r.value.y))
  }

  lemma PrependNothing(r: Option<Laid>)
    ensures Prepend([], r) == r
  {
    if r.Some? {
      assert [] + r.value.glyphs == r.value.glyphs;
    }
  }

  lemma PrependPrepend(a: seq<Glyph>, b: seq<Glyph>, r: Option<Laid>)
    ensures Prepend(a, Prepend(b, r)) == Prepend(a + b, r)
  {
    if r.Some? {
      assert a + (b + r.value.glyphs) == (a + b) + r.value.glyphs;
    }
  }

  /** The characters of one text line from cursor (x, y): a newline moves
      the cursor to the start of the next row and places nothing; any other
      character is placed at the cursor, which then moves one column right. */
  function CharsGlyphs(s: string, color: ColorPair, x: int, y: int): Option<Laid>
    decreases |s|
  {
    if s == [] then Some(Laid([], x, y))
    else if s[0] == '\n' then CharsGlyphs(s[1..], color, 0, y + 1)
    else
      var rc := CharRender(s[0], color);
      if rc.None? then None
      else Prepend([Glyph(x, y, rc.value)], CharsGlyphs(s[1..], color, x + 1, y))
  }

  /** The text lines one after another, each from where the last one left
      the cursor. */
  function LinesGlyphs(lines: seq<DialogueLine>, x: int, y: int): Option<Laid>
    decreases |lines|
  {
    if lines == [] then Some(Laid([], x, y))
    else
      var r := CharsGlyphs(lines[0].0, lines[0].1, x, y);
      if r.None? then None
      else Prepend(r.value.glyphs, LinesGlyphs(lines[1..], r.value.x, r.value.y))
  }

  /** The cell of a white character. */
  function WhiteGlyph(c: char, x: int, y: int): Glyph {
    Glyph(x, y, Render(Some(([c], WHITE))))
  }

  /** A word in white from column x of row y. */
  function WordGlyphs(w: string, x: int, y: int): (gs: seq<Glyph>)
    ensures |gs| == |w|
    ensures forall k :: 0 <= k < |w| ==> gs[k] == WhiteGlyph(w[k], x + k, y)
  {
    seq(|w|, k requires 0 <= k < |w| => WhiteGlyph(w[k], x + k, y))
  }

  /** The options from index i on, starting at column x of row y: empty
      options are skipped, and a `/` follows each other option except the
      one at the last index. */
  function OptionsGlyphs(options: seq<string>, i: nat, x: int, y: int): seq<Glyph>
    decreases |options| - i
  {
    if i >= |options| then []
    else if options[i] == [] then OptionsGlyphs(options, i + 1, x, y)
    else
      var w := WordGlyphs(options[i], x, y);
      if i == |options| - 1 then w
      else w + [WhiteGlyph('/', x + |options[i]|, y)] + OptionsGlyphs(options, i + 1, x + |options[i]| + 1, y)
  }

  /** The option texts of a dialogue. */
  function OptionTexts(options: seq<(string, Event)>): (ts: seq<string>)
    ensures |ts| == |options| && forall k :: 0 <= k < |options| ==> ts[k] == options[k].0
  {
    seq(|options|, k requires 0 <= k < |options| => options[k].0)
  }

  /** The whole layout: the text from the origin, then the options from
      column 0 of the row after the text's last row; `None` when a text
      character has a colour pair the source does not handle. */
  function Layout(lines: seq<DialogueLine>, options: seq<(string, Event)>): Option<seq<Glyph>> {
    var r := LinesGlyphs(lines, 0, 0);
    if r.None? then None
    else Some(r.value.glyphs + OptionsGlyphs(OptionTexts(options), 0, 0, r.value.y + 1))
  }

  /** A text line without newlines goes on the cursor's row, one character
      per column from the cursor on, in the line's colour. */
  lemma {:induction false} LineOnOneRow(s: string, color: ColorPair, x: int, y: int)
    requires ColorOk(color) && forall k :: 0 <= k < |s| ==> s[k] != '\n'
    ensures var r := CharsGlyphs(s, color, x, y);
      r.Some? && r.value.x == x + |s| && r.value.y == y && |r.value.glyphs| == |s|
      && forall k :: 0 <= k < |s| ==> r.value.glyphs[k] == Glyph(x + k, y, Render(Some(([s[k]], TextColor(color)))))
    decreases |s|
  {
    if s != [] {
      LineOnOneRow(s[1..], color, x + 1, y);
    }
  }

  /** A text line fails exactly when its colour pair is one the source does
      not handle and it has a character other than a newline. */
  lemma {:induction false} LineFails(s: string, color: ColorPair, x: int, y: int)
    ensures CharsGlyphs(s, color, x, y).None? <==> !ColorOk(color) && exists k :: 0 <= k < |s| && s[k] != '\n'
    decreases |s|
  {
    if s != [] {
      if s[0] == '\n' {
        LineFails(s[1..], color, 0, y + 1);
        if exists k :: 0 <= k < |s| && s[k] != '\n' {
          var k :| 0 <= k < |s| && s[k] != '\n';
          assert s[1..][k - 1] == s[k];
        }
      } else {
        LineFails(s[1..], color, x + 1, y);
        assert s[0] != '\n';
      }
    }
  }

  /** The rest of a line laid out from where a first part left the cursor. */
  function Then(r: Option<Laid>, t: string, color: ColorPair): Option<Laid> {
    if r.None? then None else Prepend(r.value.glyphs, CharsGlyphs(t, color, r.value.x, r.value.y))
  }

  /** Laying out two pieces of a line one after the other is laying out the
      whole line. */
  lemma {:induction false} LineConcat(s: string, t: string, color: ColorPair, x: int, y: int)
    ensures CharsGlyphs(s + t, color, x, y) == Then(CharsGlyphs(s, color, x, y), t, color)
    decreases |s|
  {
    if s == [] {
      assert s + t == t;
      PrependNothing(CharsGlyphs(t, color, x, y));
    } else {
      assert (s + t)[1..] == s[1..] + t;
      if s[0] == '\n' {
        LineConcat(s[1..], t, color, 0, y + 1);
      } else {
        LineConcat(s[1..], t, color, x + 1, y);
        var rc := CharRender(s[0], color);
        if rc.Some? {
          var rest := CharsGlyphs(s[1..], color, x + 1, y);
          if rest.Some? {
            PrependPrepend([Glyph(x, y, rc.value)], rest.value.glyphs,
              CharsGlyphs(t, color, rest.value.x, rest.value.y));
          }
        }
      }
    }
  }

  /** The cells of a line lie on the rows from the cursor's to the final
      cursor's, at non-negative columns when the cursor's column is. */
  lemma {:induction false} LineRows(s: string, color: ColorPair, x: int, y: int)
    ensures var r := CharsGlyphs(s, color, x, y);
      r.Some? ==> (y <= r.value.y && (x >= 0 ==> r.value.x >= 0)
        && forall g :: g in r.value.glyphs ==> y <= g.dy <= r.value.y && (x >= 0 ==> g.dx >= 0))
    decreases |s|
  {
    if s != [] {
      if s[0] == '\n' {
        LineRows(s[1..], color, 0, y + 1);
      } else {
        LineRows(s[1..], color, x + 1, y);
      }
    }
  }

  /** The same for the text lines together. */
  lemma {:induction false} TextRows(lines: seq<DialogueLine>, x: int, y: int)
    ensures var r := LinesGlyphs(lines, x, y);
      r.Some? ==> (y <= r.value.y
        && forall g :: g in r.value.glyphs ==> y <= g.dy <= r.value.y && (x >= 0 ==> g.dx >= 0))
    decreases |lines|
  {
    if lines != [] {
      var r := CharsGlyphs(lines[0].0, lines[0].1, x, y);
      LineRows(lines[0].0, lines[0].1, x, y);
      if r.Some? {
        TextRows(lines[1..], r.value.x, r.value.y);
      }
    }
  }

  /** The options occupy consecutive columns of their one row, from the
      starting column on. */
  lemma {:induction false} OptionsOnOneRow(options: seq<string>, i: nat, x: int, y: int)
    ensures forall k :: 0 <= k < |OptionsGlyphs(options, i, x, y)| ==>
      OptionsGlyphs(options, i, x, y)[k].dx == x + k && OptionsGlyphs(options, i, x, y)[k].dy == y
    decreases |options| - i
  {
    if i < |options| {
      if options[i] == [] {
        OptionsOnOneRow(options, i + 1, x, y);
      } else if i == |options| - 1 {
        assert OptionsGlyphs(options, i, x, y) == WordGlyphs(options[i], x, y);
      } else {
        OptionsOnOneRow(options, i + 1, x + |options[i]| + 1, y);
        var w := WordGlyphs(options[i], x, y);
        var rest := OptionsGlyphs(options, i + 1, x + |options[i]| + 1, y);
        var gs := w + [WhiteGlyph('/', x + |options[i]|, y)] + rest;
        assert OptionsGlyphs(options, i, x, y) == gs;
        forall k | 0 <= k < |gs|
          ensures gs[k].dx == x + k && gs[k].dy == y
        {
          if k < |w| {
            assert gs[k] == w[k];
          } else if k == |w| {
            assert gs[k] == WhiteGlyph('/', x + |options[i]|, y);
          } else {
            assert gs[k] == rest[k - |w| - 1];
          }
        }
      }
    }
  }

  /** The whole layout: the text on the rows from 0 to its last row, the
      options on the row after it, from column 0 on, one per column. */
  lemma OptionsBelowText(lines: seq<DialogueLine>, options: seq<(string, Event)>)
    ensures var r := LinesGlyphs(lines, 0, 0);
      r.Some? ==>
        var os := OptionsGlyphs(OptionTexts(options), 0, 0, r.value.y + 1);
        Layout(lines, options) == Some(r.value.glyphs + os)
        && (forall g :: g in r.value.glyphs ==> 0 <= g.dy <= r.value.y && g.dx >= 0)
        && (forall k :: 0 <= k < |os| ==> os[k].dx == k && os[k].dy == r.value.y + 1)
  {
    var r := LinesGlyphs(lines, 0, 0);
    TextRows(lines, 0, 0);
    if r.Some? {
      OptionsOnOneRow(OptionTexts(options), 0, 0, r.value.y + 1);
    }
  }

  /** The text that cells show, in order. */
  function Shown(gs: seq<Glyph>): string
    decreases |gs|
  {
    if gs == [] then ""
    else (if gs[0].render.Render? && gs[0].render.render.Some? then gs[0].render.render.value.0 else "") + Shown(gs[1..])
  }

  lemma {:induction false} ShownConcat(a: seq<Glyph>, b: seq<Glyph>)
    ensures Shown(a + b) == Shown(a) + Shown(b)
    decreases |a|
  {
    if a == [] {
      assert a + b == b;
    } else {
      assert (a + b)[1..] == a[1..] + b;
      ShownConcat(a[1..], b);
    }
  }

  lemma {:induction false} ShownWord(w: string, x: int, y: int)
    ensures Shown(WordGlyphs(w, x, y)) == w
    decreases |w|
  {
    if w != [] {
      assert WordGlyphs(w, x, y)[1..] == WordGlyphs(w[1..], x + 1, y);
      ShownWord(w[1..], x + 1, y);
    }
  }

  /** The options that are not empty. */
  function NonEmpty(options: seq<string>): seq<string>
    decreases |options|
  {
    if options == [] then []
    else (if options[0] == [] then [] else [options[0]]) + NonEmpty(options[1..])
  }

  /** Words with a `/` between each two. */
  function Join(ws: seq<string>): string
    decreases |ws|
  {
    if ws == [] then ""
    else if |ws| == 1 then ws[0]
    else ws[0] + "/" + Join(ws[1..])
  }

  /** The `/` left at the end when the last option is empty and an earlier
      one is not. */
  function Trail(options: seq<string>, i: nat): string
    requires i <= |options| && options != []
  {
    if options[|options| - 1] == [] && NonEmpty(options[i..]) != [] then "/" else ""
  }

  /** The text the options show, option by option, as `OptionsGlyphs`
      lays them out. */
  function OptionsText(options: seq<string>, i: nat): string
    decreases |options| - i
  {
    if i >= |options| then ""
    else if options[i] == [] then OptionsText(options, i + 1)
    else if i == |options| - 1 then options[i]
    else options[i] + "/" + OptionsText(options, i + 1)
  }

  /** The options show as the non-empty ones joined by `/`, with one more
      `/` at the end when the last option is empty and another is not. */
  lemma OptionsShown(options: seq<string>, i: nat, x: int, y: int)
    requires i <= |options| && options != []
    ensures Shown(OptionsGlyphs(options, i, x, y)) == Join(NonEmpty(options[i..])) + Trail(options, i)
  {
    GlyphsShowText(options, i, x, y);
    OptionsTextJoined(options, i);
  }

  /** The glyphs of the options show their text. */
  lemma GlyphsShowText(options: seq<string>, i: nat, x: int, y: int)
    ensures Shown(OptionsGlyphs(options, i, x, y)) == OptionsText(options, i)
  {
    OptionsGlyphsText(options, i, x, y);
    ShownWord(OptionsText(options, i), x, y);
  }

  /** The options are drawn as their text in white, one character per
      column from x on: the `/` separators take a column like the letters. */
  lemma {:induction false} OptionsGlyphsText(options: seq<string>, i: nat, x: int, y: int)
    ensures OptionsGlyphs(options, i, x, y) == WordGlyphs(OptionsText(options, i), x, y)
    decreases |options| - i
  {
    if i < |options| {
      var o := options[i];
      if o == [] {
        OptionsGlyphsText(options, i + 1, x, y);
      } else if i < |options| - 1 {
        OptionsGlyphsText(options, i + 1, x + |o| + 1, y);
        OptionsGlyphsTextStep(options, i, x, y);
      }
    }
  }

  /** The step of `OptionsGlyphsText` for a non-empty option before the
      last. */
  lemma OptionsGlyphsTextStep(options: seq<string>, i: nat, x: int, y: int)
    requires i < |options| - 1 && options[i] != []
    requires OptionsGlyphs(options, i + 1, x + |options[i]| + 1, y)
      == WordGlyphs(OptionsText(options, i + 1), x + |options[i]| + 1, y)
    ensures OptionsGlyphs(options, i, x, y) == WordGlyphs(OptionsText(options, i), x, y)
  {
    var o := options[i];
    var t := OptionsText(options, i + 1);
    OptionsGlyphsStep(options, i, x, x + |o|, y);
    assert OptionsText(options, i) == o + "/" + t;
    SlashJoined(o, t, x, y);
  }

  /** Two words joined by a `/` lay out as the first word, the slash right
      after it and the second word one column further on. */
  lemma SlashJoined(o: string, t: string, x: int, y: int)
    ensures WordGlyphs(o + "/" + t, x, y)
      == WordGlyphs(o, x, y) + [WhiteGlyph('/', x + |o|, y)] + WordGlyphs(t, x + |o| + 1, y)
  {
    assert WordGlyphs("/", x + |o|, y) == [WhiteGlyph('/', x + |o|, y)];
    WordGlyphsConcat(o, "/", x, y);
    assert |o + "/"| == |o| + 1;
    WordGlyphsConcat(o + "/", t, x, y);
  }

  /** The glyphs of two words one after the other. */
  lemma WordGlyphsConcat(a: string, b: string, x: int, y: int)
    ensures WordGlyphs(a + b, x, y) == WordGlyphs(a, x, y) + WordGlyphs(b, x + |a|, y)
  {
    forall k | 0 <= k < |a + b|
      ensures WordGlyphs(a + b, x, y)[k] == (WordGlyphs(a, x, y) + WordGlyphs(b, x + |a|, y))[k]
    {
      if k >= |a| {
        assert (a + b)[k] == b[k - |a|];
      }
    }
  }

  /** A non-empty option before the last: its word, a `/`, then the rest. */
  lemma OptionsGlyphsStep(options: seq<string>, i: nat, x: int, slash: int, y: int)
    requires i < |options| - 1 && options[i] != [] && slash == x + |options[i]|
    ensures OptionsGlyphs(options, i, x, y) == WordGlyphs(options[i], x, y)
      + [WhiteGlyph('/', slash, y)] + OptionsGlyphs(options, i + 1, slash + 1, y)
  { }

  /** The text of the options is the join of the non-empty ones, with the
      trailing `/`. */
  lemma {:induction false} OptionsTextJoined(options: seq<string>, i: nat)
    requires i <= |options| && options != []
    ensures OptionsText(options, i) == Join(NonEmpty(options[i..])) + Trail(options, i)
    decreases |options| - i
  {
    if i < |options| {
      assert options[i..][1..] == options[i + 1..];
      var o := options[i];
      var rest := NonEmpty(options[i + 1..]);
      if o == [] {
        OptionsTextJoined(options, i + 1);
        assert NonEmpty(options[i..]) == [] + rest == rest;
      } else if i == |options| - 1 {
        assert options[i + 1..] == [];
        assert NonEmpty(options[i..]) == [o] + [];
      } else {
        OptionsTextJoined(options, i + 1);
        assert NonEmpty(options[i..]) == [o] + rest;
        NonEmptyHasLast(options, i + 1);
        JoinFront(o, rest, Trail(options, i + 1), Trail(options, i));
      }
    }
  }

  /** One more word in front of a join, with the trailing `/` moving along. */
  lemma {:induction false} JoinFront(o: string, rest: seq<string>, t: string, t': string)
    requires rest == [] ==> t == "" && t' == "/"
    requires rest != [] ==> t' == t
    ensures o + "/" + (Join(rest) + t) == Join([o] + rest) + t'
  {
    if rest == [] {
      assert [o] + rest == [o];
    } else {
      assert ([o] + rest)[1..] == rest;
    }
  }

  /** A non-empty last option is among the non-empty options of every
      suffix that holds it. */
  lemma {:induction false} NonEmptyHasLast(options: seq<string>, i: nat)
    requires i < |options|
    ensures NonEmpty(options[i..]) == [] ==> options[|options| - 1] == []
    decreases |options| - i
  {
    assert options[i..][1..] == options[i + 1..];
    if i < |options| - 1 {
      NonEmptyHasLast(options, i + 1);
    }
  }

  // The loops.

  /** The inner loop over one text line's characters. */
  method LayOutLine(line: string, color: ColorPair, x0: int, y0: int) returns (r: Option<Laid>)
    ensures r == CharsGlyphs(line, color, x0, y0)
  {
    var glyphs: seq<Glyph> := [];
    var x := x0;
    var y := y0;
    var k := 0;
    assert line[k..] == line;
    PrependNothing(CharsGlyphs(line, color, x0, y0));
    while k < |line|
      invariant k <= |line|
      invariant Prepend(glyphs, CharsGlyphs(line[k..], color, x, y)) == CharsGlyphs(line, color, x0, y0)
    {
      var c := line[k];
      assert line[k..][1..] == line[k + 1..];
      if c == '\n' {
        x := 0;
        y := y + 1;
        k := k + 1;
        continue;
      }
      var rc := CharRender(c, color);
      if rc.None? {
        return None;
      }
      PrependPrepend(glyphs, [Glyph(x, y, rc.value)], CharsGlyphs(line[k + 1..], color, x + 1, y));
      glyphs := glyphs + [Glyph(x, y, rc.value)];
      x := x + 1;
      k := k + 1;
    }
    assert glyphs + [] == glyphs;
    r := Some(Laid(glyphs, x, y));
  }

  /** The outer loop over the text lines. */
  method LayOutText(lines: seq<DialogueLine>) returns (r: Option<Laid>)
    ensures r == LinesGlyphs(lines, 0, 0)
  {
    var glyphs: seq<Glyph> := [];
    var x := 0;
    var y := 0;
    var i := 0;
    assert lines[i..] == lines;
    PrependNothing(LinesGlyphs(lines, 0, 0));
    while i < |lines|
      invariant i <= |lines|
      invariant Prepend(glyphs, LinesGlyphs(lines[i..], x, y)) == LinesGlyphs(lines, 0, 0)
    {
      var line := LayOutLine(lines[i].0, lines[i].1, x, y);
      assert lines[i..][1..] == lines[i + 1..];
      if line.None? {
        return None;
      }
      PrependPrepend(glyphs, line.value.glyphs, LinesGlyphs(lines[i + 1..], line.value.x, line.value.y));
      glyphs := glyphs + line.value.glyphs;
      x := line.value.x;
      y := line.value.y;
      i := i + 1;
    }
    assert glyphs + [] == glyphs;
    r := Some(Laid(glyphs, x, y));
  }

  /** The loop over the options, on row y. */
  method LayOutOptions(options: seq<string>, y: int) returns (glyphs: seq<Glyph>)
    ensures glyphs == OptionsGlyphs(options, 0, 0, y)
  {
    glyphs := [];
    var x := 0;
    var i := 0;
    while i < |options|
      invariant i <= |options|
      invariant glyphs + OptionsGlyphs(options, i, x, y) == OptionsGlyphs(options, 0, 0, y)
    {
      var stop;
      glyphs, x, stop := LayOutOption(glyphs, options, i, x, y);
      if stop {
        return;
      }
      i := i + 1;
    }
  }

  /** One pass of the options loop, at option i from column x: nothing for
      an empty option; otherwise its word, then a `/` unless it is the last
      option, where the loop stops. */
  method LayOutOption(glyphs: seq<Glyph>, options: seq<string>, i: nat, x: int, y: int)
    returns (r: seq<Glyph>, x': int, stop: bool)
    requires i < |options|
    ensures stop ==> r == glyphs + OptionsGlyphs(options, i, x, y)
    ensures !stop ==> r + OptionsGlyphs(options, i + 1, x', y) == glyphs + OptionsGlyphs(options, i, x, y)
  {
    var o := options[i];
    if o == [] {
      assert OptionsGlyphs(options, i, x, y) == OptionsGlyphs(options, i + 1, x, y);
      return glyphs, x, false;
    }
    r, x' := AppendWord(glyphs, o, x, y);
    if i == |options| - 1 {
      assert OptionsGlyphs(options, i, x, y) == WordGlyphs(o, x, y);
      return r, x', true;
    }
    LayOutStep(glyphs, options, i, x, x', y);
    r := r + [WhiteGlyph('/', x', y)];
    x' := x' + 1;
    stop := false;
  }

  /** The inner loop over an option's characters: each drawn in white, one
      column further. */
  method AppendWord(glyphs: seq<Glyph>, o: string, x0: int, y: int) returns (r: seq<Glyph>, x: int)
    ensures r == glyphs + WordGlyphs(o, x0, y) && x == x0 + |o|
  {
    r := glyphs;
    x := x0;
    var k := 0;
    while k < |o|
      invariant k <= |o| && x == x0 + k
      invariant r == glyphs + WordGlyphs(o[..k], x0, y)
    {
      WordGlyphsSnoc(o, k, x0, y);
      r := r + [WhiteGlyph(o[k], x, y)];
      x := x + 1;
      k := k + 1;
    }
    assert o[..k] == o;
  }

  /** A word's glyphs up to one more character. */
  lemma WordGlyphsSnoc(w: string, k: nat, x: int, y: int)
    requires k < |w|
    ensures WordGlyphs(w[..k + 1], x, y) == WordGlyphs(w[..k], x, y) + [WhiteGlyph(w[k], x + k, y)]
  { }

  /** One pass of the options loop: after what was drawn before, the word
      and its `/` are drawn, and what is left is the options after it. */
  lemma LayOutStep(before: seq<Glyph>, options: seq<string>, i: nat, x0: int, x: int, y: int)
    requires i < |options| - 1 && options[i] != [] && x == x0 + |options[i]|
    ensures before + WordGlyphs(options[i], x0, y) + [WhiteGlyph('/', x, y)] + OptionsGlyphs(options, i + 1, x + 1, y)
      == before + OptionsGlyphs(options, i, x0, y)
  {
    OptionsGlyphsStep(options, i, x0, x, y);
    Regroup(before, WordGlyphs(options[i], x0, y), [WhiteGlyph('/', x, y)], OptionsGlyphs(options, i + 1, x + 1, y));
  }

  /** Glyphs drawn after others, regrouped. */
  lemma Regroup(before: seq<Glyph>, w: seq<Glyph>, slash: seq<Glyph>, after: seq<Glyph>)
    ensures before + w + slash + after == before + (w + slash + after)
  { }

  /** The layout of a whole dialogue. */
  method LayOut(lines: seq<DialogueLine>, options: seq<(string, Event)>) returns (r: Option<seq<Glyph>>)
    ensures r == Layout(lines, options)
  {
    var text := LayOutText(lines);
    if text.None? {
      return None;
    }
    var optionGlyphs := LayOutOptions(OptionTexts(options), text.value.y + 1);
    r := Some(text.value.glyphs + optionGlyphs);
  }
}
