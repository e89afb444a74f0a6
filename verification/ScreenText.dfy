/** The two views of a terminal screen: plain lines (`screen_content`) and runs of equally
    styled text (`screen_styled`, `extract_styled_line`).  The grid is a sequence of rows of
    cells, and a cell is shown with its zero-width characters; a spacer shows nothing. */
module ScreenText {
  import opened Wrappers
  import opened Text

  datatype Style = Style(
    fg: Option<string>,
    bg: Option<string>,
    bold: bool,
    italic: bool,
    underline: bool,
    strikeout: bool,
    dim: bool,
    inverse: bool)

  /** `spacer` stands for either wide-character spacer flag. */
  datatype Cell = Cell(c: char, zeroWidth: string, style: Style, spacer: bool)

  datatype Run = Run(text: string, style: Style)
  datatype StyledLine = StyledLine(line: nat, runs: seq<Run>)
  datatype Position = Position(row: nat, col: nat)    // counted from 1
  datatype Range = Range(start: nat, end: nat)

  datatype ScreenOpts = ScreenOpts(
    rows: Option<Range>,
    cols: Option<Range>,
    cursorChar: Option<char>,
    includeEmpty: bool)

  /** What one row needs to know of the screen; `line` counts from 1. */
  datatype Frame = Frame(line: nat, cursor: Position, cursorChar: Option<char>)

  predicate ShowsCursor(f: Frame, i: nat) {
    f.cursorChar.Some? && f.cursor.row == f.line && f.cursor.col == i + 1
  }

  // ----- ranges -----

  /** `resolve_range` */
  function ResolveRange(range: Option<Range>, max: nat): (nat, nat) {
    match range
    case None => (0, max)
    case Some(r) =>
      var start := if r.start >= 1 then r.start - 1 else 0;
      (if start < max then start else max, if r.end < max then r.end else max)
  }

  /** A range counts from 1 and includes both ends; what lies off the screen is dropped. */
  lemma ResolvedRangeSelects(range: Option<Range>, max: nat, i: nat)
    ensures var (start, end) := ResolveRange(range, max);
      && start <= max && end <= max
      && (start <= i < end <==> i < max && (range.Some? ==> range.value.start <= i + 1 <= range.value.end))
  {
  }

  // ----- the plain view -----

  /** The cursor character replaces the cell with its zero-width characters. */
  function PlainCell(cell: Cell, f: Frame, i: nat): string {
    if cell.spacer then []
    else if ShowsCursor(f, i) then [f.cursorChar.value]
    else [cell.c] + cell.zeroWidth
  }

  /** Columns `a` up to `b`. */
  function PlainText(row: seq<Cell>, f: Frame, a: nat, b: nat): string
    requires b <= |row|
  {
    if b <= a then [] else PlainText(row, f, a, b - 1) + PlainCell(row[b - 1], f, b - 1)
  }

  // ----- the styled view -----

  /** The cursor character replaces the character only. */
  function Shown(cell: Cell, f: Frame, i: nat): string {
    [if ShowsCursor(f, i) then f.cursorChar.value else cell.c] + cell.zeroWidth
  }

  function StyledCell(cell: Cell, f: Frame, i: nat): string {
    if cell.spacer then [] else Shown(cell, f, i)
  }

  function StyledText(row: seq<Cell>, f: Frame, a: nat, b: nat): string
    requires b <= |row|
  {
    if b <= a then [] else StyledText(row, f, a, b - 1) + StyledCell(row[b - 1], f, b - 1)
  }

  /** A cell extends the last run if it has its style. */
  function Append(runs: seq<Run>, text: string, style: Style): seq<Run> {
    if |runs| > 0 && runs[|runs| - 1].style == style
    then runs[..|runs| - 1] + [Run(runs[|runs| - 1].text + text, style)]
    else runs + [Run(text, style)]
  }

  function RunsOf(row: seq<Cell>, f: Frame, a: nat, b: nat): seq<Run>
    requires b <= |row|
  {
    if b <= a then []
    else
      var before, cell := RunsOf(row, f, a, b - 1), row[b - 1];
      if cell.spacer then before else Append(before, StyledCell(cell, f, b - 1), cell.style)
  }

  /** Blank, without colours and not bold; no other attribute keeps a run. */
  predicate Trimmable(r: Run) {
    Trim(r.text) == [] && r.style.fg.None? && r.style.bg.None? && !r.style.bold
  }

  function TrimRuns(runs: seq<Run>): seq<Run> {
    if |runs| > 0 && Trimmable(runs[|runs| - 1]) then TrimRuns(runs[..|runs| - 1]) else runs
  }

  function StyledRow(row: seq<Cell>, f: Frame, a: nat, b: nat): StyledLine
    requires b <= |row|
  {
    StyledLine(f.line, TrimRuns(RunsOf(row, f, a, b)))
  }

  /** The finished runs with the run being built. */
  function WithPending(runs: seq<Run>, text: string, style: Option<Style>): seq<Run> {
    if style.None? then runs else runs + [Run(text, style.value)]
  }

  /** A cell flushes the pending run if its style differs, and extends it otherwise. */
  lemma PendingExtends(runs: seq<Run>, text: string, style: Option<Style>, more: string, moreStyle: Style)
    requires style.None? ==> runs == [] && text == []
    ensures Append(WithPending(runs, text, style), more, moreStyle)
         == if style.None? || style.value == moreStyle then WithPending(runs, text + more, Some(moreStyle))
            else WithPending(runs + [Run(text, style.value)], more, Some(moreStyle))
  {
    if style.None? {
      assert text + more == more;
    } else {
      assert (runs + [Run(text, style.value)])[..|runs|] == runs;
    }
  }

  /** The loop has read the columns before `i`. */
  ghost predicate Building(row: seq<Cell>, f: Frame, a: nat, i: nat, runs: seq<Run>, text: string, style: Option<Style>)
    requires i <= |row|
  {
    && (style.None? ==> runs == [] && text == [])
    && (style.Some? ==> text != [])
    && WithPending(runs, text, style) == RunsOf(row, f, a, i)
  }

  lemma BuildingStep(row: seq<Cell>, f: Frame, a: nat, i: nat, runs: seq<Run>, text: string, style: Option<Style>)
    requires a <= i < |row| && Building(row, f, a, i, runs, text, style)
    ensures var cell := row[i];
      if cell.spacer then Building(row, f, a, i + 1, runs, text, style)
      else if style.None? || style.value == cell.style
        then Building(row, f, a, i + 1, runs, text + Shown(cell, f, i), Some(cell.style))
        else Building(row, f, a, i + 1, runs + [Run(text, style.value)], [] + Shown(cell, f, i), Some(cell.style))
  {
    PendingExtends(runs, text, style, StyledCell(row[i], f, i), row[i].style);
    assert [] + Shown(row[i], f, i) == Shown(row[i], f, i);
  }

  method ExtractRuns(row: seq<Cell>, a: nat, b: nat, f: Frame) returns (runs: seq<Run>)
    requires a <= |row| && b <= |row|
    ensures runs == RunsOf(row, f, a, b)
  {
    var text: string, style: Option<Style> := [], None;
    runs := [];
    var i := a;
    while i < b
      invariant a <= i <= |row| && (i <= b || i == a)
      invariant Building(row, f, a, i, runs, text, style)
    {
      var cell := row[i];
      BuildingStep(row, f, a, i, runs, text, style);
      if !cell.spacer {
        if style.Some? {
          if style.value != cell.style {
            if text != [] {
              runs, text := runs + [Run(text, style.value)], [];
            }
            style := Some(cell.style);
          }
        } else {
          style := Some(cell.style);
        }
        text := text + Shown(cell, f, i);
      }
      i := i + 1;
    }
    if text != [] && style.Some? {
      runs := runs + [Run(text, style.value)];
    }
  }

  method ExtractStyledLine(row: seq<Cell>, a: nat, b: nat, f: Frame) returns (r: StyledLine)
    requires a <= |row| && b <= |row|
    ensures r == StyledRow(row, f, a, b)
  {
    var runs := ExtractRuns(row, a, b, f);
    while |runs| > 0 && Trimmable(runs[|runs| - 1])
      invariant TrimRuns(runs) == TrimRuns(RunsOf(row, f, a, b))
    {
      runs := runs[..|runs| - 1];
    }
    r := StyledLine(f.line, runs);
  }

  // ----- what runs mean -----

  /** A character as shown. */
  datatype Glyph = Glyph(c: char, style: Style)

  ghost function Paint(text: string, style: Style): seq<Glyph> {
    if |text| == 0 then [] else Paint(text[..|text| - 1], style) + [Glyph(text[|text| - 1], style)]
  }

  ghost function Glyphs(runs: seq<Run>): seq<Glyph> {
    if |runs| == 0 then [] else Glyphs(runs[..|runs| - 1]) + Paint(runs[|runs| - 1].text, runs[|runs| - 1].style)
  }

  /** Every cell's characters in the cell's own style. */
  ghost function RowGlyphs(row: seq<Cell>, f: Frame, a: nat, b: nat): seq<Glyph>
    requires b <= |row|
  {
    if b <= a then [] else RowGlyphs(row, f, a, b - 1) + Paint(StyledCell(row[b - 1], f, b - 1), row[b - 1].style)
  }

  /** No run is empty, and neighbours differ in style. */
  ghost predicate Coalesced(runs: seq<Run>) {
    && (forall i :: 0 <= i < |runs| ==> runs[i].text != [])
    && (forall i :: 0 < i < |runs| ==> runs[i - 1].style != runs[i].style)
  }

  lemma {:induction false} PaintAt(text: string, style: Style, k: nat)
    ensures |Paint(text, style)| == |text|
    ensures k < |text| ==> Paint(text, style)[k] == Glyph(text[k], style)
  {
    if |text| > 0 {
      PaintAt(text[..|text| - 1], style, k);
    }
  }

  lemma {:induction false} PaintConcat(s: string, t: string, style: Style)
    ensures Paint(s + t, style) == Paint(s, style) + Paint(t, style)
  {
    if |t| == 0 {
      assert s + t == s;
    } else {
      PaintConcat(s, t[..|t| - 1], style);
      assert (s + t)[..|s + t| - 1] == s + t[..|t| - 1];
    }
  }

  lemma GlyphsSnoc(runs: seq<Run>, r: Run)
    ensures Glyphs(runs + [r]) == Glyphs(runs) + Paint(r.text, r.style)
  {
    assert (runs + [r])[..|runs|] == runs;
  }

  lemma AppendCoalesces(runs: seq<Run>, text: string, style: Style)
    requires Coalesced(runs) && text != []
    ensures Coalesced(Append(runs, text, style))
  {
  }

  lemma AppendGlyphs(runs: seq<Run>, text: string, style: Style)
    ensures Glyphs(Append(runs, text, style)) == Glyphs(runs) + Paint(text, style)
  {
    if |runs| > 0 && runs[|runs| - 1].style == style {
      var init, last := runs[..|runs| - 1], runs[|runs| - 1];
      assert runs == init + [last];
      GlyphsSnoc(init, last);
      GlyphsSnoc(init, Run(last.text + text, style));
      PaintConcat(last.text, text, style);
    } else {
      GlyphsSnoc(runs, Run(text, style));
    }
  }

  lemma {:induction false} RunsAreCoalesced(row: seq<Cell>, f: Frame, a: nat, b: nat)
    requires b <= |row|
    ensures Coalesced(RunsOf(row, f, a, b))
    decreases b
  {
    if a < b {
      RunsAreCoalesced(row, f, a, b - 1);
      if !row[b - 1].spacer {
        AppendCoalesces(RunsOf(row, f, a, b - 1), StyledCell(row[b - 1], f, b - 1), row[b - 1].style);
      }
    }
  }

  ghost predicate Painted(row: seq<Cell>, f: Frame, a: nat, b: nat)
    requires b <= |row|
  {
    Glyphs(RunsOf(row, f, a, b)) == RowGlyphs(row, f, a, b)
  }

  lemma PaintOneMore(row: seq<Cell>, f: Frame, a: nat, b: nat)
    requires a < b <= |row| && !row[b - 1].spacer && Painted(row, f, a, b - 1)
    ensures Painted(row, f, a, b)
  {
    var before, shown, style := RunsOf(row, f, a, b - 1), StyledCell(row[b - 1], f, b - 1), row[b - 1].style;
    calc {
      Glyphs(RunsOf(row, f, a, b));
      Glyphs(Append(before, shown, style));
      { AppendGlyphs(before, shown, style); }
      Glyphs(before) + Paint(shown, style);
      RowGlyphs(row, f, a, b);
    }
  }

  lemma PaintNothing(row: seq<Cell>, f: Frame, a: nat, b: nat)
    requires b <= a && b <= |row|
    ensures Painted(row, f, a, b)
  {
  }

  lemma PaintSpacer(row: seq<Cell>, f: Frame, a: nat, b: nat)
    requires a < b <= |row| && row[b - 1].spacer && Painted(row, f, a, b - 1)
    ensures Painted(row, f, a, b)
  {
    assert RowGlyphs(row, f, a, b) == RowGlyphs(row, f, a, b - 1);
  }

  lemma PaintStep(row: seq<Cell>, f: Frame, a: nat, b: nat)
    requires b <= |row| && (a < b ==> Painted(row, f, a, b - 1))
    ensures Painted(row, f, a, b)
  {
    if b <= a {
      PaintNothing(row, f, a, b);
    } else if row[b - 1].spacer {
      PaintSpacer(row, f, a, b);
    } else {
      PaintOneMore(row, f, a, b);
    }
  }

  /** Coalescing loses nothing: the runs paint every character in its cell's style. */
  lemma {:induction false} RunsPaintTheRow(row: seq<Cell>, f: Frame, a: nat, b: nat)
    requires b <= |row|
    ensures Painted(row, f, a, b)
    decreases b
  {
    if a < b {
      RunsPaintTheRow(row, f, a, b - 1);
    }
    PaintStep(row, f, a, b);
  }

  lemma LastGlyph(runs: seq<Run>)
    requires |runs| > 0 && Coalesced(runs)
    ensures var g, r := Glyphs(runs), runs[|runs| - 1];
      && |g| == |Glyphs(runs[..|runs| - 1])| + |r.text| && g[|g| - 1].style == r.style
  {
    PaintAt(runs[|runs| - 1].text, runs[|runs| - 1].style, |runs[|runs| - 1].text| - 1);
  }

  /** One coalesced list cannot have the shorter last run. */
  lemma LastRunsMatch(x: seq<Run>, y: seq<Run>)
    requires |x| > 0 && |y| > 0 && Coalesced(x) && Coalesced(y) && Glyphs(x) == Glyphs(y)
    ensures |x[|x| - 1].text| >= |y[|y| - 1].text|
  {
    var rx, ry := x[|x| - 1], y[|y| - 1];
    LastGlyph(x);
    LastGlyph(y);
    if |rx.text| < |ry.text| {
      var init := x[..|x| - 1];
      if |init| == 0 {
        assert false;
      } else {
        LastGlyph(init);
        var g := Glyphs(init);
        assert Glyphs(x)[|g| - 1] == g[|g| - 1];
        PaintAt(ry.text, ry.style, |g| - 1 - |Glyphs(y[..|y| - 1])|);
      }
    }
  }

  lemma LastRunsAreEqual(x: seq<Run>, y: seq<Run>)
    requires |x| > 0 && |y| > 0 && Coalesced(x) && Coalesced(y) && Glyphs(x) == Glyphs(y)
    ensures x[|x| - 1] == y[|y| - 1] && Glyphs(x[..|x| - 1]) == Glyphs(y[..|y| - 1])
  {
    LastGlyph(x);
    LastGlyph(y);
    LastRunsMatch(x, y);
    LastRunsMatch(y, x);
    var rx, ry, n := x[|x| - 1], y[|y| - 1], |Glyphs(x[..|x| - 1])|;
    assert Glyphs(x)[..n] == Glyphs(x[..|x| - 1]) && Glyphs(y)[..n] == Glyphs(y[..|y| - 1]);
    forall k | 0 <= k < |rx.text| ensures rx.text[k] == ry.text[k] {
      PaintAt(rx.text, rx.style, k);
      PaintAt(ry.text, ry.style, k);
      assert Glyphs(x)[n + k] == Glyphs(y)[n + k];
    }
    assert rx.text == ry.text;
  }

  /** There is only one coalesced list of runs for what is shown. */
  lemma {:induction false} RunsAreUnique(x: seq<Run>, y: seq<Run>)
    requires Coalesced(x) && Coalesced(y) && Glyphs(x) == Glyphs(y)
    ensures x == y
    decreases |x|
  {
    if |x| == 0 || |y| == 0 {
      if |x| > 0 {
        LastGlyph(x);
      }
      if |y| > 0 {
        LastGlyph(y);
      }
    } else {
      LastRunsAreEqual(x, y);
      RunsAreUnique(x[..|x| - 1], y[..|y| - 1]);
      assert x == x[..|x| - 1] + [x[|x| - 1]] && y == y[..|y| - 1] + [y[|y| - 1]];
    }
  }

  lemma {:induction false} TrimRunsIsPrefix(runs: seq<Run>)
    ensures TrimRuns(runs) <= runs
  {
    if |runs| > 0 && Trimmable(runs[|runs| - 1]) {
      TrimRunsIsPrefix(runs[..|runs| - 1]);
    }
  }

  lemma {:induction false} TrimRunsStops(runs: seq<Run>)
    ensures |TrimRuns(runs)| <= |runs|
    ensures |TrimRuns(runs)| > 0 ==> !Trimmable(runs[|TrimRuns(runs)| - 1])
  {
    if |runs| > 0 && Trimmable(runs[|runs| - 1]) {
      TrimRunsStops(runs[..|runs| - 1]);
    }
  }

  lemma {:induction false} TrimRunsDrops(runs: seq<Run>, i: nat)
    requires |TrimRuns(runs)| <= i < |runs|
    ensures Trimmable(runs[i])
  {
    if i < |runs| - 1 {
      TrimRunsDrops(runs[..|runs| - 1], i);
    }
  }

  /** A blank run at the end is dropped although it shows, in reverse video, underlined or
      struck out. */
  lemma ShownBlankIsDropped(runs: seq<Run>, text: string, style: Style)
    requires Blank(text) && style.fg.None? && style.bg.None? && !style.bold
    ensures TrimRuns(runs + [Run(text, style)]) == TrimRuns(runs)
  {
    TrimOfBlank(text);
    assert (runs + [Run(text, style)])[..|runs|] == runs;
  }

  /** A styled line is the coalesced list of runs that paints the row, whichever way it is
      found, without its trailing blank runs that have no colour and are not bold. */
  lemma StyledRowIsCanonical(row: seq<Cell>, f: Frame, a: nat, b: nat, runs: seq<Run>)
    requires b <= |row| && Coalesced(runs) && Glyphs(runs) == RowGlyphs(row, f, a, b)
    ensures StyledRow(row, f, a, b).runs == TrimRuns(runs) <= runs && Coalesced(TrimRuns(runs))
    ensures forall i :: |TrimRuns(runs)| <= i < |runs| ==> Trimmable(runs[i])
    ensures |TrimRuns(runs)| > 0 ==> !Trimmable(runs[|TrimRuns(runs)| - 1])
  {
    TrimRunsStops(runs);
    RunsAreCoalesced(row, f, a, b);
    RunsPaintTheRow(row, f, a, b);
    RunsAreUnique(runs, RunsOf(row, f, a, b));
    TrimRunsIsPrefix(runs);
    forall i | |TrimRuns(runs)| <= i < |runs| ensures Trimmable(runs[i]) {
      TrimRunsDrops(runs, i);
    }
  }

  // ----- the two views of a row -----

  ghost function Concat(runs: seq<Run>): string {
    if |runs| == 0 then [] else Concat(runs[..|runs| - 1]) + runs[|runs| - 1].text
  }

  lemma ConcatAppend(runs: seq<Run>, text: string, style: Style)
    ensures Concat(Append(runs, text, style)) == Concat(runs) + text
  {
    if |runs| > 0 && runs[|runs| - 1].style == style {
      assert Append(runs, text, style)[..|runs| - 1] == runs[..|runs| - 1];
    } else {
      assert Append(runs, text, style)[..|runs|] == runs;
    }
  }

  ghost predicate Spelled(row: seq<Cell>, f: Frame, a: nat, b: nat)
    requires b <= |row|
  {
    Concat(RunsOf(row, f, a, b)) == StyledText(row, f, a, b)
  }

  lemma SpellOneMore(row: seq<Cell>, f: Frame, a: nat, b: nat)
    requires a < b <= |row| && !row[b - 1].spacer && Spelled(row, f, a, b - 1)
    ensures Spelled(row, f, a, b)
  {
    var before, shown, style := RunsOf(row, f, a, b - 1), StyledCell(row[b - 1], f, b - 1), row[b - 1].style;
    calc {
      Concat(RunsOf(row, f, a, b));
      Concat(Append(before, shown, style));
      { ConcatAppend(before, shown, style); }
      Concat(before) + shown;
      StyledText(row, f, a, b);
    }
  }

  lemma SpellNothing(row: seq<Cell>, f: Frame, a: nat, b: nat)
    requires b <= a && b <= |row|
    ensures Spelled(row, f, a, b)
  {
  }

  lemma SpellSpacer(row: seq<Cell>, f: Frame, a: nat, b: nat)
    requires a < b <= |row| && row[b - 1].spacer && Spelled(row, f, a, b - 1)
    ensures Spelled(row, f, a, b)
  {
    assert StyledText(row, f, a, b) == StyledText(row, f, a, b - 1);
  }

  lemma SpellStep(row: seq<Cell>, f: Frame, a: nat, b: nat)
    requires b <= |row| && (a < b ==> Spelled(row, f, a, b - 1))
    ensures Spelled(row, f, a, b)
  {
    if b <= a {
      SpellNothing(row, f, a, b);
    } else if row[b - 1].spacer {
      SpellSpacer(row, f, a, b);
    } else {
      SpellOneMore(row, f, a, b);
    }
  }

  lemma {:induction false} RunsSpellTheRow(row: seq<Cell>, f: Frame, a: nat, b: nat)
    requires b <= |row|
    ensures Spelled(row, f, a, b)
    decreases b
  {
    if a < b {
      RunsSpellTheRow(row, f, a, b - 1);
    }
    SpellStep(row, f, a, b);
  }

  /** Dropped runs are blank at the end of the line, so trimming text hides the loss. */
  lemma {:induction false} TrimmedRunsSpell(runs: seq<Run>)
    ensures TrimEnd(Concat(TrimRuns(runs))) == TrimEnd(Concat(runs))
  {
    if |runs| > 0 && Trimmable(runs[|runs| - 1]) {
      TrimmedRunsSpell(runs[..|runs| - 1]);
      TrimOfBlank(runs[|runs| - 1].text);
      TrimEndDropsBlank(Concat(runs[..|runs| - 1]), runs[|runs| - 1].text);
    }
  }

  /** The column is shown as the cursor. */
  ghost predicate CursorAt(row: seq<Cell>, f: Frame, k: nat)
    requires k < |row|
  {
    ShowsCursor(f, k) && !row[k].spacer
  }

  lemma {:induction false} SameWithoutCursor(row: seq<Cell>, f: Frame, a: nat, b: nat)
    requires b <= |row| && forall k: nat :: a <= k < b ==> !CursorAt(row, f, k)
    ensures StyledText(row, f, a, b) == PlainText(row, f, a, b)
    decreases b
  {
    if a < b {
      assert !CursorAt(row, f, b - 1);
      SameWithoutCursor(row, f, a, b - 1);
    }
  }

  lemma {:induction false} PlainSplits(row: seq<Cell>, f: Frame, a: nat, k: nat, b: nat)
    requires a <= k <= b <= |row|
    ensures PlainText(row, f, a, b) == PlainText(row, f, a, k) + PlainText(row, f, k, b)
    decreases b
  {
    if k < b {
      PlainSplits(row, f, a, k, b - 1);
      var x, y, z := PlainText(row, f, a, k), PlainText(row, f, k, b - 1), PlainCell(row[b - 1], f, b - 1);
      calc {
        PlainText(row, f, a, b);
        x + y + z;
        { Regroup(x, y, z); }
        x + (y + z);
        x + PlainText(row, f, k, b);
      }
    }
  }

  lemma {:induction false} StyledSplits(row: seq<Cell>, f: Frame, a: nat, k: nat, b: nat)
    requires a <= k <= b <= |row|
    ensures StyledText(row, f, a, b) == StyledText(row, f, a, k) + StyledText(row, f, k, b)
    decreases b
  {
    if k < b {
      StyledSplits(row, f, a, k, b - 1);
      var x, y, z := StyledText(row, f, a, k), StyledText(row, f, k, b - 1), StyledCell(row[b - 1], f, b - 1);
      calc {
        StyledText(row, f, a, b);
        x + y + z;
        { Regroup(x, y, z); }
        x + (y + z);
        x + StyledText(row, f, k, b);
      }
    }
  }

  /** At the cursor the styled view keeps the zero-width characters the plain one drops. */
  lemma StyledAtCursor(row: seq<Cell>, f: Frame, a: nat, b: nat, k: nat)
    requires a <= k < b <= |row| && CursorAt(row, f, k)
    ensures StyledText(row, f, a, b) == PlainText(row, f, a, k + 1) + row[k].zeroWidth + PlainText(row, f, k + 1, b)
  {
    StyledSplits(row, f, a, k + 1, b);
    SameWithoutCursor(row, f, a, k);
    SameWithoutCursor(row, f, k + 1, b);
  }

  /** `TrimEnd` of a text with something inserted. */
  lemma InsertedTrimEnd(p: string, z: string, s: string)
    ensures TrimEnd(p + z + s) == TrimEnd(p + s) <==> z == [] || (Blank(z) && Blank(s))
  {
    if Blank(s) {
      TrimEndDropsBlank(p + z, s);
      TrimEndDropsBlank(p, s);
      if Blank(z) {
        TrimEndDropsBlank(p, z);
      } else {
        TrimEndKeeps(p, z);
        TrimEndDrops(p);
        TrimEndDrops(z);
        assert TrimEnd(z) != [] by {
          assert z[0..] == z;
        }
      }
    } else {
      TrimEndKeeps(p + z, s);
      TrimEndKeeps(p, s);
      if z == [] {
        assert p + z == p;
      }
    }
  }

  ghost predicate RowViewsAgree(row: seq<Cell>, f: Frame, a: nat, b: nat)
    requires b <= |row|
  {
    TrimEnd(Concat(StyledRow(row, f, a, b).runs)) == TrimEnd(PlainText(row, f, a, b))
  }

  /** The cell has no zero-width characters, or nothing but blanks from them on. */
  ghost predicate NothingExtraShown(row: seq<Cell>, f: Frame, b: nat, k: nat)
    requires k < b <= |row|
  {
    row[k].zeroWidth == [] || (Blank(row[k].zeroWidth) && Blank(PlainText(row, f, k + 1, b)))
  }

  lemma RowViewsAgreeByText(row: seq<Cell>, f: Frame, a: nat, b: nat)
    requires b <= |row|
    ensures RowViewsAgree(row, f, a, b) <==> TrimEnd(StyledText(row, f, a, b)) == TrimEnd(PlainText(row, f, a, b))
  {
    RunsSpellTheRow(row, f, a, b);
    TrimmedRunsSpell(RunsOf(row, f, a, b));
  }

  lemma TextsAgreeAtCursor(row: seq<Cell>, f: Frame, a: nat, b: nat, k: nat)
    requires a <= k < b <= |row| && CursorAt(row, f, k)
    ensures TrimEnd(StyledText(row, f, a, b)) == TrimEnd(PlainText(row, f, a, b)) <==>
      NothingExtraShown(row, f, b, k)
  {
    StyledAtCursor(row, f, a, b, k);
    PlainSplits(row, f, a, k + 1, b);
    InsertedTrimEnd(PlainText(row, f, a, k + 1), row[k].zeroWidth, PlainText(row, f, k + 1, b));
  }

  /** The concatenated runs of a row, right-trimmed, are its plain line where no cursor is
      shown, and at a shown cursor exactly if the cell has no zero-width characters, or
      only blanks from there on. */
  lemma RowViewsAgreeIff(row: seq<Cell>, f: Frame, a: nat, b: nat)
    requires b <= |row|
    ensures RowViewsAgree(row, f, a, b) <==>
      forall k: nat :: a <= k < b && CursorAt(row, f, k) ==> NothingExtraShown(row, f, b, k)
  {
    RowViewsAgreeByText(row, f, a, b);
    if k: nat :| a <= k < b && CursorAt(row, f, k) {
      TextsAgreeAtCursor(row, f, a, b, k);
    } else {
      SameWithoutCursor(row, f, a, b);
    }
  }

  // ----- whole screens -----

  /** Every row has the grid's width. */
  predicate Rectangular(grid: seq<seq<Cell>>, width: nat) {
    forall i :: 0 <= i < |grid| ==> |grid[i]| == width
  }

  datatype Screen = Screen(grid: seq<seq<Cell>>, width: nat, cursor: Position) {
    predicate Valid() {
      Rectangular(grid, width)
    }
  }

  function FrameAt(s: Screen, opts: ScreenOpts, i: nat): Frame {
    Frame(i + 1, s.cursor, opts.cursorChar)
  }

  function PlainLine(s: Screen, opts: ScreenOpts, i: nat): string
    requires s.Valid() && i < |s.grid|
  {
    var cols := ResolveRange(opts.cols, s.width);
    PlainText(s.grid[i], FrameAt(s, opts, i), cols.0, cols.1)
  }

  function StyledLineAt(s: Screen, opts: ScreenOpts, i: nat): StyledLine
    requires s.Valid() && i < |s.grid|
  {
    var cols := ResolveRange(opts.cols, s.width);
    StyledRow(s.grid[i], FrameAt(s, opts, i), cols.0, cols.1)
  }

  /** Rows `a` up to `b`, untrimmed. */
  function PlainLines(s: Screen, opts: ScreenOpts, a: nat, b: nat): seq<string>
    requires s.Valid() && b <= |s.grid|
  {
    if b <= a then [] else PlainLines(s, opts, a, b - 1) + [PlainLine(s, opts, b - 1)]
  }

  function StyledLines(s: Screen, opts: ScreenOpts, a: nat, b: nat): seq<StyledLine>
    requires s.Valid() && b <= |s.grid|
  {
    if b <= a then [] else StyledLines(s, opts, a, b - 1) + [StyledLineAt(s, opts, b - 1)]
  }

  function DropBlankLines(lines: seq<string>): seq<string> {
    if |lines| > 0 && Trim(lines[|lines| - 1]) == [] then DropBlankLines(lines[..|lines| - 1]) else lines
  }

  function TrimLines(lines: seq<string>): seq<string> {
    if |lines| == 0 then [] else TrimLines(lines[..|lines| - 1]) + [TrimEnd(lines[|lines| - 1])]
  }

  function DropEmptyLines(lines: seq<StyledLine>): seq<StyledLine> {
    if |lines| > 0 && lines[|lines| - 1].runs == [] then DropEmptyLines(lines[..|lines| - 1]) else lines
  }

  function PlainScreen(s: Screen, opts: ScreenOpts): seq<string>
    requires s.Valid()
  {
    var rows := ResolveRange(opts.rows, |s.grid|);
    var lines := PlainLines(s, opts, rows.0, rows.1);
    TrimLines(if opts.includeEmpty then lines else DropBlankLines(lines))
  }

  function StyledScreen(s: Screen, opts: ScreenOpts): seq<StyledLine>
    requires s.Valid()
  {
    var rows := ResolveRange(opts.rows, |s.grid|);
    var lines := StyledLines(s, opts, rows.0, rows.1);
    if opts.includeEmpty then lines else DropEmptyLines(lines)
  }

  method ExtractPlainLine(row: seq<Cell>, a: nat, b: nat, f: Frame) returns (text: string)
    requires a <= |row| && b <= |row|
    ensures text == PlainText(row, f, a, b)
  {
    text := [];
    var i := a;
    while i < b
      invariant a <= i && (i <= b || i == a)
      invariant text == PlainText(row, f, a, i)
    {
      var cell := row[i];
      assert PlainText(row, f, a, i + 1) == text + PlainCell(cell, f, i);
      if !cell.spacer {
        if ShowsCursor(f, i) {
          text := text + [f.cursorChar.value];
        } else {
          text := text + ([cell.c] + cell.zeroWidth);
        }
      }
      i := i + 1;
    }
  }

  method TrimScreen(untrimmed: seq<string>, includeEmpty: bool) returns (lines: seq<string>)
    ensures lines == TrimLines(if includeEmpty then untrimmed else DropBlankLines(untrimmed))
  {
    lines := untrimmed;
    if !includeEmpty {
      while |lines| > 0 && Trim(lines[|lines| - 1]) == []
        invariant DropBlankLines(lines) == DropBlankLines(untrimmed)
      {
        lines := lines[..|lines| - 1];
      }
    }
    ghost var kept := lines;
    for k := 0 to |lines|
      invariant |lines| == |kept|
      invariant forall i :: 0 <= i < k ==> lines[i] == TrimEnd(kept[i])
      invariant forall i :: k <= i < |lines| ==> lines[i] == kept[i]
    {
      lines := lines[k := TrimEnd(lines[k])];
    }
    TrimLinesEqual(kept, lines);
  }

  /** The rows from `a` up to `i` have been read. */
  ghost predicate PlainRead(s: Screen, opts: ScreenOpts, a: nat, i: nat, lines: seq<string>)
    requires s.Valid() && i <= |s.grid|
  {
    lines == PlainLines(s, opts, a, i)
  }

  ghost predicate StyledRead(s: Screen, opts: ScreenOpts, a: nat, i: nat, lines: seq<StyledLine>)
    requires s.Valid() && i <= |s.grid|
  {
    lines == StyledLines(s, opts, a, i)
  }

  lemma PlainReadMore(s: Screen, opts: ScreenOpts, a: nat, i: nat, lines: seq<string>)
    requires s.Valid() && a <= i < |s.grid| && PlainRead(s, opts, a, i, lines)
    ensures PlainRead(s, opts, a, i + 1, lines + [PlainLine(s, opts, i)])
  {
  }

  lemma StyledReadMore(s: Screen, opts: ScreenOpts, a: nat, i: nat, lines: seq<StyledLine>)
    requires s.Valid() && a <= i < |s.grid| && StyledRead(s, opts, a, i, lines)
    ensures StyledRead(s, opts, a, i + 1, lines + [StyledLineAt(s, opts, i)])
  {
  }

  method ReadPlainLines(s: Screen, opts: ScreenOpts, a: nat, b: nat) returns (lines: seq<string>)
    requires s.Valid() && a <= |s.grid| && b <= |s.grid|
    ensures lines == PlainLines(s, opts, a, b)
  {
    var cols := ResolveRange(opts.cols, s.width);
    lines := [];
    var i := a;
    while i < b
      invariant a <= i <= |s.grid| && (i <= b || i == a) && PlainRead(s, opts, a, i, lines)
    {
      var text := ExtractPlainLine(s.grid[i], cols.0, cols.1, FrameAt(s, opts, i));
      PlainReadMore(s, opts, a, i, lines);
      lines := lines + [text];
      i := i + 1;
    }
  }

  method ReadStyledLines(s: Screen, opts: ScreenOpts, a: nat, b: nat) returns (lines: seq<StyledLine>)
    requires s.Valid() && a <= |s.grid| && b <= |s.grid|
    ensures lines == StyledLines(s, opts, a, b)
  {
    var cols := ResolveRange(opts.cols, s.width);
    lines := [];
    var i := a;
    while i < b
      invariant a <= i <= |s.grid| && (i <= b || i == a) && StyledRead(s, opts, a, i, lines)
    {
      var line := ExtractStyledLine(s.grid[i], cols.0, cols.1, FrameAt(s, opts, i));
      StyledReadMore(s, opts, a, i, lines);
      lines := lines + [line];
      i := i + 1;
    }
  }

  method ScreenContent(s: Screen, opts: ScreenOpts) returns (lines: seq<string>)
    requires s.Valid()
    ensures lines == PlainScreen(s, opts)
  {
    var rows := ResolveRange(opts.rows, |s.grid|);
    lines := ReadPlainLines(s, opts, rows.0, rows.1);
    lines := TrimScreen(lines, opts.includeEmpty);
  }

  method ScreenStyled(s: Screen, opts: ScreenOpts) returns (lines: seq<StyledLine>)
    requires s.Valid()
    ensures lines == StyledScreen(s, opts)
  {
    var rows := ResolveRange(opts.rows, |s.grid|);
    lines := ReadStyledLines(s, opts, rows.0, rows.1);
    if !opts.includeEmpty {
      lines := PopEmptyLines(lines);
    }
  }

  method PopEmptyLines(all: seq<StyledLine>) returns (lines: seq<StyledLine>)
    ensures lines == DropEmptyLines(all)
  {
    lines := all;
    while |lines| > 0 && lines[|lines| - 1].runs == []
      invariant DropEmptyLines(lines) == DropEmptyLines(all)
    {
      lines := lines[..|lines| - 1];
    }
  }

  lemma {:induction false} TrimLinesAt(lines: seq<string>, i: nat)
    ensures |TrimLines(lines)| == |lines|
    ensures i < |lines| ==> TrimLines(lines)[i] == TrimEnd(lines[i])
  {
    if |lines| > 0 {
      TrimLinesAt(lines[..|lines| - 1], i);
    }
  }

  lemma TrimLinesEqual(kept: seq<string>, lines: seq<string>)
    requires |lines| == |kept| && forall i :: 0 <= i < |kept| ==> lines[i] == TrimEnd(kept[i])
    ensures lines == TrimLines(kept)
  {
    TrimLinesAt(kept, 0);
    forall i | 0 <= i < |kept| ensures TrimLines(kept)[i] == lines[i] {
      TrimLinesAt(kept, i);
    }
  }

  lemma {:induction false} LineCounts(s: Screen, opts: ScreenOpts, a: nat, b: nat)
    requires s.Valid() && b <= |s.grid|
    ensures |PlainLines(s, opts, a, b)| == |StyledLines(s, opts, a, b)| == if a <= b then b - a else 0
    decreases b
  {
    if a < b {
      LineCounts(s, opts, a, b - 1);
    }
  }

  lemma {:induction false} LinesAt(s: Screen, opts: ScreenOpts, a: nat, b: nat, i: nat)
    requires s.Valid() && b <= |s.grid| && a + i < b
    requires |PlainLines(s, opts, a, b)| == |StyledLines(s, opts, a, b)| == b - a
    ensures PlainLines(s, opts, a, b)[i] == PlainLine(s, opts, a + i)
    ensures StyledLines(s, opts, a, b)[i] == StyledLineAt(s, opts, a + i)
    decreases b
  {
    if a + i < b - 1 {
      LinesAt(s, opts, a, b - 1, i);
    }
  }

  lemma {:induction false} DroppedLinesAreBlank(lines: seq<string>)
    ensures DropBlankLines(lines) <= lines
    ensures forall i :: |DropBlankLines(lines)| <= i < |lines| ==> Trim(lines[i]) == []
    ensures |DropBlankLines(lines)| > 0 ==> Trim(lines[|DropBlankLines(lines)| - 1]) != []
  {
    if |lines| > 0 && Trim(lines[|lines| - 1]) == [] {
      DroppedLinesAreBlank(lines[..|lines| - 1]);
    }
  }

  lemma {:induction false} DroppedLinesAreEmpty(lines: seq<StyledLine>)
    ensures DropEmptyLines(lines) <= lines
    ensures forall i :: |DropEmptyLines(lines)| <= i < |lines| ==> lines[i].runs == []
    ensures |DropEmptyLines(lines)| > 0 ==> lines[|DropEmptyLines(lines)| - 1].runs != []
  {
    if |lines| > 0 && lines[|lines| - 1].runs == [] {
      DroppedLinesAreEmpty(lines[..|lines| - 1]);
    }
  }

  lemma BlankByTrimEnd(s: string, t: string)
    requires TrimEnd(s) == TrimEnd(t)
    ensures Blank(s) <==> Blank(t)
  {
    TrimEndDrops(s);
    TrimEndDrops(t);
    assert s == TrimEnd(s) + s[|TrimEnd(s)|..] && t == TrimEnd(t) + t[|TrimEnd(t)|..];
  }

  /** Line by line, the two lists of untrimmed lines show the same text. */
  ghost predicate LinesAgree(plain: seq<string>, styled: seq<StyledLine>) {
    |plain| == |styled| && forall i :: 0 <= i < |plain| ==> TrimEnd(Concat(styled[i].runs)) == TrimEnd(plain[i])
  }

  lemma PlainDropsMore(plain: seq<string>, styled: seq<StyledLine>)
    requires LinesAgree(plain, styled)
    ensures |DropBlankLines(plain)| <= |DropEmptyLines(styled)| <= |styled|
    ensures forall i :: |DropBlankLines(plain)| <= i < |DropEmptyLines(styled)| ==> Blank(Concat(styled[i].runs))
  {
    DroppedLinesAreBlank(plain);
    DroppedLinesAreEmpty(styled);
    forall i | 0 <= i < |plain| ensures Trim(plain[i]) == [] <==> Blank(Concat(styled[i].runs)) {
      BlankByTrimEnd(Concat(styled[i].runs), plain[i]);
      TrimOfBlank(plain[i]);
    }
  }

  /** Row `i` shows no cursor, or one at which nothing extra is shown. */
  ghost predicate CursorHarmless(s: Screen, opts: ScreenOpts, i: nat)
    requires s.Valid() && i < |s.grid|
  {
    var cols, f := ResolveRange(opts.cols, s.width), FrameAt(s, opts, i);
    forall k: nat :: cols.0 <= k < cols.1 && CursorAt(s.grid[i], f, k) ==> NothingExtraShown(s.grid[i], f, cols.1, k)
  }

  lemma LineAgreesIff(s: Screen, opts: ScreenOpts, i: nat)
    requires s.Valid() && i < |s.grid|
    ensures TrimEnd(Concat(StyledLineAt(s, opts, i).runs)) == TrimEnd(PlainLine(s, opts, i)) <==> CursorHarmless(s, opts, i)
    ensures StyledLineAt(s, opts, i).line == i + 1
  {
    var cols := ResolveRange(opts.cols, s.width);
    RowViewsAgreeIff(s.grid[i], FrameAt(s, opts, i), cols.0, cols.1);
  }

  /** No row from `a` up to `b` has a harmful cursor. */
  ghost predicate CursorHarmlessIn(s: Screen, opts: ScreenOpts, a: nat, b: nat)
    requires s.Valid() && b <= |s.grid|
  {
    forall i: nat :: a <= i < b ==> CursorHarmless(s, opts, i)
  }

  lemma LineOfAgreesIff(s: Screen, opts: ScreenOpts, a: nat, b: nat, i: nat)
    requires s.Valid() && a <= i < b <= |s.grid|
    ensures |PlainLines(s, opts, a, b)| == |StyledLines(s, opts, a, b)| == b - a
    ensures TrimEnd(Concat(StyledLines(s, opts, a, b)[i - a].runs)) == TrimEnd(PlainLines(s, opts, a, b)[i - a])
      <==> CursorHarmless(s, opts, i)
    ensures StyledLines(s, opts, a, b)[i - a].line == i + 1
  {
    LineCounts(s, opts, a, b);
    LinesAt(s, opts, a, b, i - a);
    LineAgreesIff(s, opts, i);
  }

  lemma UntrimmedAgreeIff(s: Screen, opts: ScreenOpts, a: nat, b: nat)
    requires s.Valid() && b <= |s.grid|
    ensures LinesAgree(PlainLines(s, opts, a, b), StyledLines(s, opts, a, b)) <==> CursorHarmlessIn(s, opts, a, b)
  {
    var p, t := PlainLines(s, opts, a, b), StyledLines(s, opts, a, b);
    LineCounts(s, opts, a, b);
    if LinesAgree(p, t) {
      forall i: nat | a <= i < b ensures CursorHarmless(s, opts, i) {
        LineOfAgreesIff(s, opts, a, b, i);
      }
    } else {
      var k :| 0 <= k < |p| && TrimEnd(Concat(t[k].runs)) != TrimEnd(p[k]);
      LineOfAgreesIff(s, opts, a, b, a + k);
    }
  }

  lemma LineNumbers(s: Screen, opts: ScreenOpts, a: nat, b: nat)
    requires s.Valid() && b <= |s.grid|
    ensures forall i :: 0 <= i < |StyledLines(s, opts, a, b)| ==> StyledLines(s, opts, a, b)[i].line == a + i + 1
  {
    LineCounts(s, opts, a, b);
    forall i | 0 <= i < |StyledLines(s, opts, a, b)| ensures StyledLines(s, opts, a, b)[i].line == a + i + 1 {
      LineOfAgreesIff(s, opts, a, b, a + i);
    }
  }

  /** The plain lines are the styled ones' right-trimmed texts; styled lines beyond them
      are blank. */
  ghost predicate ShowsTheSame(plain: seq<string>, styled: seq<StyledLine>) {
    && |plain| <= |styled|
    && (forall i :: 0 <= i < |plain| ==> plain[i] == TrimEnd(Concat(styled[i].runs)))
    && (forall i :: |plain| <= i < |styled| ==> Blank(Concat(styled[i].runs)))
  }

  lemma TrimLinesAre(lines: seq<string>)
    ensures |TrimLines(lines)| == |lines|
    ensures forall i :: 0 <= i < |lines| ==> TrimLines(lines)[i] == TrimEnd(lines[i])
  {
    TrimLinesAt(lines, 0);
    forall i | 0 <= i < |lines| ensures TrimLines(lines)[i] == TrimEnd(lines[i]) {
      TrimLinesAt(lines, i);
    }
  }

  lemma AllLinesAgreeIff(plain: seq<string>, styled: seq<StyledLine>)
    requires |plain| == |styled|
    ensures ShowsTheSame(TrimLines(plain), styled) <==> LinesAgree(plain, styled)
  {
    TrimLinesAre(plain);
  }

  lemma PrefixesAgree(plain: seq<string>, styled: seq<StyledLine>, lines: seq<string>, t: seq<StyledLine>)
    requires LinesAgree(plain, styled) && |lines| <= |t| && t <= styled
    requires forall i :: 0 <= i < |lines| ==> lines[i] == TrimEnd(plain[i])
    requires forall i :: |lines| <= i < |t| ==> Blank(Concat(styled[i].runs))
    ensures ShowsTheSame(lines, t)
  {
    forall i | 0 <= i < |lines| ensures lines[i] == TrimEnd(Concat(t[i].runs)) {
      assert t[i] == styled[i];
    }
    forall i | |lines| <= i < |t| ensures Blank(Concat(t[i].runs)) {
      assert t[i] == styled[i];
    }
  }

  lemma AgreementSurvivesTrim(plain: seq<string>, styled: seq<StyledLine>)
    requires LinesAgree(plain, styled)
    ensures ShowsTheSame(TrimLines(DropBlankLines(plain)), DropEmptyLines(styled))
  {
    PlainDropsMore(plain, styled);
    DroppedLinesAreBlank(plain);
    DroppedLinesAreEmpty(styled);
    TrimLinesAre(DropBlankLines(plain));
    PrefixesAgree(plain, styled, TrimLines(DropBlankLines(plain)), DropEmptyLines(styled));
  }

  lemma TrimShowsAgreement(plain: seq<string>, styled: seq<StyledLine>)
    requires |plain| == |styled|
    requires ShowsTheSame(TrimLines(DropBlankLines(plain)), DropEmptyLines(styled))
    ensures LinesAgree(plain, styled)
  {
    var p, t := |DropBlankLines(plain)|, |DropEmptyLines(styled)|;
    DroppedLinesAreBlank(plain);
    DroppedLinesAreEmpty(styled);
    TrimLinesAre(DropBlankLines(plain));
    forall i | 0 <= i < |plain| ensures TrimEnd(Concat(styled[i].runs)) == TrimEnd(plain[i]) {
      if i >= p {
        TrimOfBlank(plain[i]);
        BlankTrimsToNothing(plain[i]);
        assert Blank(Concat(styled[i].runs));
        BlankTrimsToNothing(Concat(styled[i].runs));
      }
    }
  }

  /** Whole screens: the views agree on every plain line, and the styled one only adds
      blank lines at the end, exactly if no row shows a cursor that hides zero-width
      characters with something visible from there on. */
  lemma ScreensAgreeIff(s: Screen, opts: ScreenOpts)
    requires s.Valid()
    ensures var rows := ResolveRange(opts.rows, |s.grid|);
      ShowsTheSame(PlainScreen(s, opts), StyledScreen(s, opts)) <==> CursorHarmlessIn(s, opts, rows.0, rows.1)
  {
    var rows := ResolveRange(opts.rows, |s.grid|);
    var p, t := PlainLines(s, opts, rows.0, rows.1), StyledLines(s, opts, rows.0, rows.1);
    UntrimmedAgreeIff(s, opts, rows.0, rows.1);
    LineCounts(s, opts, rows.0, rows.1);
    if opts.includeEmpty {
      AllLinesAgreeIff(p, t);
    } else {
      if LinesAgree(p, t) {
        AgreementSurvivesTrim(p, t);
      }
      if ShowsTheSame(TrimLines(DropBlankLines(p)), DropEmptyLines(t)) {
        TrimShowsAgreement(p, t);
      }
    }
  }

  /** Without a cursor character whole screens always agree; lines are numbered by their
      place on the screen. */
  lemma ScreensAgree(s: Screen, opts: ScreenOpts)
    requires s.Valid() && opts.cursorChar.None?
    ensures ShowsTheSame(PlainScreen(s, opts), StyledScreen(s, opts))
    ensures opts.includeEmpty ==> |PlainScreen(s, opts)| == |StyledScreen(s, opts)|
    ensures var styled := StyledScreen(s, opts);
      forall i :: 0 <= i < |styled| ==> styled[i].line == ResolveRange(opts.rows, |s.grid|).0 + i + 1
  {
    var rows := ResolveRange(opts.rows, |s.grid|);
    ScreensAgreeIff(s, opts);
    LineNumbers(s, opts, rows.0, rows.1);
    LineCounts(s, opts, rows.0, rows.1);
    DroppedLinesAreEmpty(StyledLines(s, opts, rows.0, rows.1));
    TrimLinesAre(PlainLines(s, opts, rows.0, rows.1));
  }
}
