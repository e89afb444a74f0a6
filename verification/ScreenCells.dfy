/** Which characters stand on which line of a screen, by row and column. */
module ScreenCells {
  import opened Wrappers
  import opened Text
  import opened ScreenText

  /** Rows and columns of the grid count from 0, the cursor's from 1. */
  predicate CursorOn(s: Screen, opts: ScreenOpts, row: nat, col: nat) {
    opts.cursorChar.Some? && s.cursor.row == row + 1 && s.cursor.col == col + 1
  }

  function PlainAt(s: Screen, opts: ScreenOpts, row: nat, col: nat): string
    requires s.Valid() && row < |s.grid| && col < s.width
  {
    var cell := s.grid[row][col];
    if cell.spacer then []
    else if CursorOn(s, opts, row, col) then [opts.cursorChar.value]
    else [cell.c] + cell.zeroWidth
  }

  /** In the styled view the zero-width characters stay under the cursor. */
  function StyledAt(s: Screen, opts: ScreenOpts, row: nat, col: nat): string
    requires s.Valid() && row < |s.grid| && col < s.width
  {
    var cell := s.grid[row][col];
    if cell.spacer then []
    else if CursorOn(s, opts, row, col) then [opts.cursorChar.value] + cell.zeroWidth
    else [cell.c] + cell.zeroWidth
  }

  lemma CellsRead(s: Screen, opts: ScreenOpts, row: nat, col: nat)
    requires s.Valid() && row < |s.grid| && col < s.width
    ensures PlainCell(s.grid[row][col], FrameAt(s, opts, row), col) == PlainAt(s, opts, row, col)
    ensures StyledCell(s.grid[row][col], FrameAt(s, opts, row), col) == StyledAt(s, opts, row, col)
  {
  }

  /** The row's columns from `a` up to `b`, from left to right. */
  function RowText(s: Screen, opts: ScreenOpts, row: nat, a: nat, b: nat): string
    requires s.Valid() && row < |s.grid| && b <= s.width
    decreases b
  {
    if b <= a then [] else RowText(s, opts, row, a, b - 1) + PlainAt(s, opts, row, b - 1)
  }

  lemma {:induction false} PlainTextReads(s: Screen, opts: ScreenOpts, row: nat, a: nat, b: nat)
    requires s.Valid() && row < |s.grid| && b <= s.width
    ensures PlainText(s.grid[row], FrameAt(s, opts, row), a, b) == RowText(s, opts, row, a, b)
    decreases b
  {
    if a < b {
      PlainTextReads(s, opts, row, a, b - 1);
      CellsRead(s, opts, row, b - 1);
    }
  }

  /** The row's chosen columns. */
  function ChosenText(s: Screen, opts: ScreenOpts, row: nat): string
    requires s.Valid() && row < |s.grid|
  {
    var (left, right) := ResolveRange(opts.cols, s.width);
    RowText(s, opts, row, left, right)
  }

  lemma PlainLineReads(s: Screen, opts: ScreenOpts, row: nat)
    requires s.Valid() && row < |s.grid|
    ensures PlainLine(s, opts, row) == ChosenText(s, opts, row)
  {
    var (left, right) := ResolveRange(opts.cols, s.width);
    PlainTextReads(s, opts, row, left, right);
  }

  ghost predicate LineIs(s: Screen, opts: ScreenOpts, row: nat, line: string)
    requires s.Valid()
  {
    row < |s.grid| && line == ChosenText(s, opts, row)
  }

  /** The rows from `top` on, one line each. */
  ghost predicate Rows(s: Screen, opts: ScreenOpts, top: nat, lines: seq<string>)
    requires s.Valid()
  {
    forall k :: 0 <= k < |lines| ==> LineIs(s, opts, top + k, lines[k])
  }

  lemma RowsNext(s: Screen, opts: ScreenOpts, top: nat, lines: seq<string>, line: string)
    requires s.Valid() && Rows(s, opts, top, lines) && LineIs(s, opts, top + |lines|, line)
    ensures Rows(s, opts, top, lines + [line])
  {
    var more := lines + [line];
    forall k | 0 <= k < |more| ensures LineIs(s, opts, top + k, more[k]) {
      assert k < |lines| ==> more[k] == lines[k];
    }
  }

  lemma {:induction false} UntrimmedRows(s: Screen, opts: ScreenOpts, a: nat, b: nat)
    requires s.Valid() && b <= |s.grid|
    ensures |PlainLines(s, opts, a, b)| == (if a < b then b - a else 0) && Rows(s, opts, a, PlainLines(s, opts, a, b))
    decreases b
  {
    if a < b {
      UntrimmedRows(s, opts, a, b - 1);
      PlainLineReads(s, opts, b - 1);
      RowsNext(s, opts, a, PlainLines(s, opts, a, b - 1), PlainLine(s, opts, b - 1));
    }
  }

  ghost predicate TrimmedIs(s: Screen, opts: ScreenOpts, row: nat, line: string)
    requires s.Valid()
  {
    row < |s.grid| && line == TrimEnd(ChosenText(s, opts, row))
  }

  /** The rows from `top` on, right-trimmed. */
  ghost predicate LinesOf(s: Screen, opts: ScreenOpts, top: nat, lines: seq<string>)
    requires s.Valid()
  {
    forall k :: 0 <= k < |lines| ==> TrimmedIs(s, opts, top + k, lines[k])
  }

  lemma TrimmedRows(s: Screen, opts: ScreenOpts, top: nat, rows: seq<string>, kept: seq<string>, lines: seq<string>)
    requires s.Valid() && Rows(s, opts, top, rows) && kept <= rows && |lines| == |kept|
    requires forall k :: 0 <= k < |kept| ==> lines[k] == TrimEnd(kept[k])
    ensures LinesOf(s, opts, top, lines)
  {
    forall k | 0 <= k < |lines| ensures TrimmedIs(s, opts, top + k, lines[k]) {
      assert kept[k] == rows[k] && LineIs(s, opts, top + k, rows[k]);
    }
  }

  /** Where the shown rows begin and end. */
  function TopOf(s: Screen, opts: ScreenOpts): nat {
    ResolveRange(opts.rows, |s.grid|).0
  }

  function BottomOf(s: Screen, opts: ScreenOpts): nat {
    ResolveRange(opts.rows, |s.grid|).1
  }

  /** The plain view of a screen: the chosen rows from the first on, each with its chosen
      columns from left to right, right-trimmed. */
  lemma PlainScreenReads(s: Screen, opts: ScreenOpts)
    requires s.Valid()
    ensures LinesOf(s, opts, TopOf(s, opts), PlainScreen(s, opts))
  {
    var top, bottom := TopOf(s, opts), BottomOf(s, opts);
    var rows := PlainLines(s, opts, top, bottom);
    var kept := if opts.includeEmpty then rows else DropBlankLines(rows);
    UntrimmedRows(s, opts, top, bottom);
    DroppedLinesAreBlank(rows);
    TrimLinesAre(kept);
    assert PlainScreen(s, opts) == TrimLines(kept);
    TrimmedRows(s, opts, top, rows, kept, PlainScreen(s, opts));
  }

  /** With empty lines there are all of them. */
  lemma AllRowsAreShown(s: Screen, opts: ScreenOpts)
    requires s.Valid() && opts.includeEmpty
    ensures var top, bottom := TopOf(s, opts), BottomOf(s, opts);
      |PlainScreen(s, opts)| == if top < bottom then bottom - top else 0
  {
    UntrimmedRows(s, opts, TopOf(s, opts), BottomOf(s, opts));
    TrimLinesAre(PlainLines(s, opts, TopOf(s, opts), BottomOf(s, opts)));
  }

  /** Without them there are as many as are left when the blank rows at the end go. */
  lemma ShownCount(s: Screen, opts: ScreenOpts)
    requires s.Valid() && !opts.includeEmpty
    ensures |PlainScreen(s, opts)| == |DropBlankLines(PlainLines(s, opts, TopOf(s, opts), BottomOf(s, opts)))|
  {
    TrimLinesAre(DropBlankLines(PlainLines(s, opts, TopOf(s, opts), BottomOf(s, opts))));
  }

  /** Each row that goes is blank. */
  lemma DroppedRow(s: Screen, opts: ScreenOpts, top: nat, rows: seq<string>, k: nat)
    requires s.Valid() && Rows(s, opts, top, rows) && |DropBlankLines(rows)| <= k < |rows|
    ensures top + k < |s.grid| && Blank(ChosenText(s, opts, top + k))
  {
    DroppedLinesAreBlank(rows);
    TrimOfBlank(rows[k]);
    assert LineIs(s, opts, top + k, rows[k]);
  }

  /** And the last line is not. */
  lemma LastLineShows(s: Screen, opts: ScreenOpts)
    requires s.Valid() && !opts.includeEmpty
    ensures var lines := PlainScreen(s, opts); lines != [] ==> !Blank(lines[|lines| - 1])
  {
    var rows := PlainLines(s, opts, TopOf(s, opts), BottomOf(s, opts));
    var kept := DropBlankLines(rows);
    DroppedLinesAreBlank(rows);
    TrimLinesAre(kept);
    if kept != [] {
      TrimOfBlank(kept[|kept| - 1]);
      TrimOfBlankEnd(kept[|kept| - 1]);
    }
  }

  lemma TrimOfBlankEnd(line: string)
    ensures Blank(TrimEnd(line)) ==> Blank(line)
  {
    TrimEndDrops(line);
    var r := TrimEnd(line);
    assert line == r + line[|r|..];
  }
}
