/**
 * `render_snapshot` (crates/daemon/src/terminal_model.rs): a screen printed as the escape
 * sequences that draw it, proved against the terminal that reads them.
 */
module Snapshot {
  import opened Common
  import opened Sgr
  import opened Terminal

  /** A grid cell; `empty` is the emulator's own judgement of it. */
  datatype Cell = Cell(glyph: Glyph, empty: bool)

  datatype Grid = Grid(
    alt: bool, title: string, rows: nat, cols: nat, lines: seq<seq<Cell>>, cursorRow: nat, cursorCol: nat)

  predicate Rectangular(grid: Grid) {
    |grid.lines| == grid.rows && forall r :: 0 <= r < grid.rows ==> |grid.lines[r]| == grid.cols
  }

  /** One past the last cell that is not empty. */
  function OccupiedColumns(line: seq<Cell>): (n: nat)
    ensures n <= |line| && (n > 0 ==> !line[n - 1].empty)
    ensures forall k :: n <= k < |line| ==> line[k].empty
  {
    if line == [] then 0
    else if !line[|line| - 1].empty then |line|
    else OccupiedColumns(line[..|line| - 1])
  }

  // ----------------------------------------------------------------- the printer

  /** The title without the two characters that would end the title string. */
  function TitleText(title: string): string {
    if title == "" then ""
    else
      var c := title[|title| - 1];
      TitleText(title[..|title| - 1]) + if c == '\U{1b}' || c == '\U{07}' then "" else [c]
  }

  /** The title is filtered character by character: escape and bell go, and everything else stays. */
  lemma {:induction false} TitleInParts(a: string, b: string)
    ensures TitleText(a + b) == TitleText(a) + TitleText(b)
  {
    if b == "" {
      assert a + b == a;
    } else {
      TitleInParts(a, b[..|b| - 1]);
      assert (a + b)[..|a + b| - 1] == a + b[..|b| - 1];
    }
  }

  lemma TitleOfOne(c: char)
    ensures TitleText([c]) == if c == '\U{1b}' || c == '\U{07}' then "" else [c]
  {
    assert [c][..0] == "";
  }

  method PushTitle(out: string, title: string) returns (r: string)
    ensures r == out + ("\U{1b}]" + ("0;" + TitleText(title)) + "\U{1b}\\")
  {
    r := out + "\U{1b}]0;";
    for i := 0 to |title|
      invariant r == out + "\U{1b}]0;" + TitleText(title[..i])
    {
      assert title[..i + 1][..i] == title[..i];
      if title[i] != '\U{1b}' && title[i] != '\U{07}' {
        r := r + [title[i]];
      }
    }
    assert title[..|title|] == title;
    ghost var text := TitleText(title);
    assert "\U{1b}]" + ("0;" + text) == "\U{1b}]0;" + text;
    r := r + "\U{1b}\\";
    assert r == out + ("\U{1b}]0;" + text + "\U{1b}\\");
  }

  method PushCellText(out: string, cell: Cell) returns (r: string)
    ensures r == out + ([cell.glyph.c] + cell.glyph.marks)
  {
    r := out + [cell.glyph.c];
    for i := 0 to |cell.glyph.marks|
      invariant r == out + ([cell.glyph.c] + cell.glyph.marks[..i])
    {
      r := r + [cell.glyph.marks[i]];
    }
    assert cell.glyph.marks[..|cell.glyph.marks|] == cell.glyph.marks;
  }

  // ------------------------------------------------------------------ the domain

  ghost predicate MarksOk(width: Width, marks: string) {
    forall i :: 0 <= i < |marks| ==> width(marks[i]) == 0 && !IsControl(marks[i])
  }

  /** A printed cell holds one printable character of its own width, and displayable attributes. */
  ghost predicate TextOk(width: Width, glyph: Glyph, columns: nat) {
    width(glyph.c) == columns && !IsControl(glyph.c) && MarksOk(width, glyph.marks) && Displayable(glyph.attrs)
  }

  ghost predicate CellOk(width: Width, line: seq<Cell>, k: nat)
    requires k < |line|
  {
    match line[k].glyph.shape
    case Narrow => TextOk(width, line[k].glyph, 1)
    case Wide =>
      TextOk(width, line[k].glyph, 2) && k + 1 < |line| && line[k + 1].glyph.shape.Spacer? && !line[k + 1].empty
    case Spacer => k > 0 && line[k - 1].glyph.shape.Wide?
    case LeadingSpacer => k == |line| - 1
  }

  ghost predicate LineOk(width: Width, line: seq<Cell>) {
    forall k: nat :: k < OccupiedColumns(line) ==> CellOk(width, line, k)
  }

  /** The screens a terminal can hold. */
  ghost predicate InDomain(width: Width, grid: Grid)
    requires Rectangular(grid)
  {
    && grid.cursorRow < grid.rows && grid.cursorCol < grid.cols
    && (forall i :: 0 <= i < |grid.title| ==> !IsControl(grid.title[i]))
    && (forall r :: 0 <= r < grid.rows ==> LineOk(width, grid.lines[r]))
  }

  /** The glyph that cell `k` of a line leaves on a terminal. */
  ghost function Kept(line: seq<Cell>, k: nat): Glyph
    requires k < |line|
  {
    match line[k].glyph.shape
    case LeadingSpacer => BLANK
    case Spacer => Glyph(Spacer, ' ', "", if k > 0 then line[k - 1].glyph.attrs else DEFAULT_ATTRS)
    case _ => line[k].glyph
  }

  /** The first `upto` cells of the line are on the row; the rest of the row is blank. */
  ghost predicate RowShows(row: seq<Glyph>, line: seq<Cell>, upto: nat) {
    && |row| == |line|
    && (forall k: nat :: k < |line| ==> row[k] == if k < upto then Kept(line, k) else BLANK)
  }

  ghost predicate Frame(t: Screen, grid: Grid) {
    && WellFormed(t) && t.rows == grid.rows && t.cols == grid.cols
    && t.alt == grid.alt && t.title == grid.title && t.mode == Ground
  }

  /** Rows above `row` are drawn, rows from `row` on are blank except possibly `row` itself. */
  ghost predicate RowsAround(t: Screen, grid: Grid, row: nat)
    requires Rectangular(grid) && Frame(t, grid)
  {
    && (forall r: nat :: r < row && r < grid.rows ==>
          RowShows(t.cells[r], grid.lines[r], OccupiedColumns(grid.lines[r])))
    && (forall r: nat :: row < r < grid.rows ==> t.cells[r] == BlankRow(grid.cols))
  }

  /** Between rows. */
  ghost predicate Drawn(t: Screen, grid: Grid, row: nat)
    requires Rectangular(grid)
  {
    && Frame(t, grid) && RowsAround(t, grid, row) && t.pen == DEFAULT_ATTRS
    && (row < grid.rows ==> t.cells[row] == BlankRow(grid.cols))
  }

  /** The column reached after the first `k` cells. */
  ghost function Reach(line: seq<Cell>, k: nat): nat
    requires k <= |line|
  {
    if k > 0 && line[k - 1].glyph.shape.Wide? then k + 1 else k
  }

  /** Inside a row: `k` cells handled, the terminal's pen equal to the printer's attributes. */
  ghost predicate Drawing(t: Screen, grid: Grid, row: nat, k: nat, pen: Attrs)
    requires Rectangular(grid) && row < grid.rows && k <= grid.cols
  {
    && Frame(t, grid) && RowsAround(t, grid, row) && t.pen == pen && t.row == row
    && RowShows(t.cells[row], grid.lines[row], Reach(grid.lines[row], k))
    && (Reach(grid.lines[row], k) < grid.cols ==> t.col == Reach(grid.lines[row], k) && !t.wrapPending)
  }

  /** The screen mode, title, cursor, and every cell below each row's occupied columns; blanks elsewhere. */
  ghost predicate Restores(t: Screen, grid: Grid)
    requires Rectangular(grid)
  {
    && Frame(t, grid) && t.pen == DEFAULT_ATTRS
    && t.row == grid.cursorRow && t.col == grid.cursorCol
    && (forall r: nat :: r < grid.rows ==> RowShows(t.cells[r], grid.lines[r], OccupiedColumns(grid.lines[r])))
  }

  // ------------------------------------------------------------------- one cell

  lemma {:induction false} PrintMarks(width: Width, t: Screen, marks: string, col: nat)
    requires WellFormed(t) && t.mode == Ground && MarksOk(width, marks) && MarkColumn(t) == Some(col)
    ensures
      var base := t.cells[t.row][col];
      Run(width, t, marks) == Put(t, t.row, col, base.(marks := base.marks + marks))
  {
    var base := t.cells[t.row][col];
    if marks == "" {
      assert base.marks + "" == base.marks;
      assert t.cells[t.row][col := base] == t.cells[t.row];
      assert t.cells[t.row := t.cells[t.row]] == t.cells;
    } else {
      var init, c := marks[..|marks| - 1], marks[|marks| - 1];
      PrintMarks(width, t, init, col);
      PrintMark(width, t, col, base.(marks := base.marks + init), c);
      assert base.marks + init + [c] == base.marks + marks;
    }
  }

  /** A mark joins the glyph that was put where marks go. */
  lemma PrintMark(width: Width, t: Screen, col: nat, glyph: Glyph, c: char)
    requires WellFormed(t) && t.mode == Ground && MarkColumn(t) == Some(col) && width(c) == 0 && !IsControl(c)
    requires glyph.shape == t.cells[t.row][col].shape
    ensures Step(width, Put(t, t.row, col, glyph), c) == Put(t, t.row, col, glyph.(marks := glyph.marks + [c]))
  {
    assert MarkColumn(Put(t, t.row, col, glyph)) == Some(col);
    PutTwice(t, t.row, col, glyph, glyph.(marks := glyph.marks + [c]));
  }

  lemma PutTwice(t: Screen, row: nat, col: nat, first: Glyph, second: Glyph)
    requires WellFormed(t) && row < t.rows && col < t.cols
    ensures Put(Put(t, row, col, first), row, col, second) == Put(t, row, col, second)
  {
    var cells := t.cells[row];
    assert cells[col := first][col := second] == cells[col := second];
    assert t.cells[row := cells[col := first]][row := cells[col := second]] == t.cells[row := cells[col := second]];
  }

  ghost function PlacedAt(t: Screen, glyph: Glyph, k: nat): Glyph
    requires WellFormed(t) && k < t.cols
  {
    if k == t.col then glyph
    else if glyph.shape.Wide? && k == t.col + 1 then Glyph(Spacer, ' ', "", t.pen)
    else t.cells[t.row][k]
  }

  /** `u` is `t` with one more glyph, the cursor moved past it. */
  ghost predicate Placed(t: Screen, u: Screen, glyph: Glyph)
    requires WellFormed(t) && WellFormed(u)
  {
    && u == t.(cells := u.cells, col := u.col, wrapPending := u.wrapPending)
    && (forall r: nat :: r < t.rows && r != t.row ==> u.cells[r] == t.cells[r])
    && (forall k: nat :: k < t.cols ==> u.cells[t.row][k] == PlacedAt(t, glyph, k))
    && var after := t.col + if glyph.shape.Wide? then 2 else 1;
       after < t.cols ==> u.col == after && !u.wrapPending
  }

  ghost predicate Fits(width: Width, t: Screen, glyph: Glyph) {
    && WellFormed(t) && t.mode == Ground && !t.wrapPending && glyph.attrs == t.pen
    && ((glyph.shape.Narrow? && TextOk(width, glyph, 1))
        || (glyph.shape.Wide? && TextOk(width, glyph, 2) && t.col + 1 < t.cols))
  }

  lemma PrintBase(width: Width, t: Screen, glyph: Glyph)
    requires Fits(width, t, glyph)
    ensures Placed(t, Print(width, t, glyph.c), glyph.(marks := ""))
    ensures MarkColumn(Print(width, t, glyph.c)) == Some(t.col)
  {
  }

  /** A base character and its marks, printed where the cursor stands. */
  lemma PrintCell(width: Width, t: Screen, glyph: Glyph)
    requires Fits(width, t, glyph)
    ensures Placed(t, Run(width, t, [glyph.c] + glyph.marks), glyph)
  {
    var bare := Print(width, t, glyph.c);
    PrintBase(width, t, glyph);
    RunChar(width, t, glyph.c);
    RunThen(width, t, [glyph.c], bare, glyph.marks);
    PrintMarks(width, bare, glyph.marks, t.col);
    assert "" + glyph.marks == glyph.marks;
  }

  // -------------------------------------------------------------------- one row

  /** `CSI row;1 H` starts a row. */
  lemma StartRow(width: Width, t: Screen, grid: Grid, row: nat)
    requires Rectangular(grid) && InDomain(width, grid) && row < grid.rows && Drawn(t, grid, row)
    ensures Drawing(Run(width, t, CsiText(false, [[row + 1], [1]], 'H')), grid, row, 0, DEFAULT_ATTRS)
  {
    RunCsi(width, t, false, [[row + 1], [1]], 'H');
  }

  /** A spacer is skipped: its column is already taken, or stays blank at the end of the row. */
  lemma SkipCell(width: Width, t: Screen, grid: Grid, row: nat, k: nat, pen: Attrs)
    requires Rectangular(grid) && InDomain(width, grid) && row < grid.rows
    requires k < OccupiedColumns(grid.lines[row]) && Drawing(t, grid, row, k, pen)
    requires grid.lines[row][k].glyph.shape.Spacer? || grid.lines[row][k].glyph.shape.LeadingSpacer?
    ensures Drawing(t, grid, row, k + 1, pen)
  {
    var line := grid.lines[row];
    assert LineOk(width, line) && CellOk(width, line, k);
    if k > 0 && line[k - 1].glyph.shape.Wide? {
      assert CellOk(width, line, k - 1);
    }
  }

  /** New attributes move the pen to exactly those attributes. */
  lemma SetPen(width: Width, t: Screen, grid: Grid, row: nat, k: nat, pen: Attrs, attrs: Attrs)
    requires Rectangular(grid) && row < grid.rows && k <= grid.cols && Drawing(t, grid, row, k, pen)
    requires Displayable(attrs)
    ensures Drawing(Run(width, t, CsiText(false, SgrParams(attrs), 'm')), grid, row, k, attrs)
  {
    RunCsi(width, t, false, SgrParams(attrs), 'm');
    SgrRoundTrip(t.pen, attrs);
  }

  /** Printing a cell with its own pen adds that cell to the row. */
  lemma DrawCell(width: Width, t: Screen, grid: Grid, row: nat, k: nat)
    requires Rectangular(grid) && InDomain(width, grid) && row < grid.rows && k < OccupiedColumns(grid.lines[row])
    requires grid.lines[row][k].glyph.shape.Narrow? || grid.lines[row][k].glyph.shape.Wide?
    requires Drawing(t, grid, row, k, grid.lines[row][k].glyph.attrs)
    ensures
      var glyph := grid.lines[row][k].glyph;
      Drawing(Run(width, t, [glyph.c] + glyph.marks), grid, row, k + 1, glyph.attrs)
  {
    var line := grid.lines[row];
    var glyph := line[k].glyph;
    assert LineOk(width, line) && CellOk(width, line, k) && (k > 0 ==> CellOk(width, line, k - 1));
    assert Reach(line, k) == k;
    PrintCell(width, t, glyph);
    PlacedExtends(t, Run(width, t, [glyph.c] + glyph.marks), line, k);
  }

  lemma PlacedExtends(t: Screen, u: Screen, line: seq<Cell>, k: nat)
    requires WellFormed(t) && WellFormed(u) && k < |line| == t.cols && t.col == k
    requires line[k].glyph.shape.Narrow? || line[k].glyph.shape.Wide?
    requires line[k].glyph.shape.Wide? ==> k + 1 < |line| && line[k + 1].glyph.shape.Spacer?
    requires Placed(t, u, line[k].glyph) && t.pen == line[k].glyph.attrs && RowShows(t.cells[t.row], line, k)
    ensures RowShows(u.cells[t.row], line, Reach(line, k + 1))
  {
    forall j: nat | j < |line|
      ensures u.cells[t.row][j] == if j < Reach(line, k + 1) then Kept(line, j) else BLANK
    {
      assert u.cells[t.row][j] == PlacedAt(t, line[k].glyph, j);
    }
  }

  /** Resetting the pen ends the row. */
  lemma EndRow(width: Width, t: Screen, grid: Grid, row: nat, pen: Attrs)
    requires Rectangular(grid) && InDomain(width, grid) && row < grid.rows
    requires Drawing(t, grid, row, OccupiedColumns(grid.lines[row]), pen)
    ensures pen == DEFAULT_ATTRS ==> Drawn(t, grid, row + 1)
    ensures Drawn(Run(width, t, CsiText(false, [[0]], 'm')), grid, row + 1)
  {
    RunCsi(width, t, false, [[0]], 'm');
    OccupiedIsReached(width, grid.lines[row]);
    RowDone(t, grid, row, pen);
  }

  /** The last occupied cell is not half of a wide one. */
  lemma OccupiedIsReached(width: Width, line: seq<Cell>)
    requires LineOk(width, line)
    ensures Reach(line, OccupiedColumns(line)) == OccupiedColumns(line)
  {
    if OccupiedColumns(line) > 0 {
      assert CellOk(width, line, OccupiedColumns(line) - 1);
    }
  }

  lemma RowDone(t: Screen, grid: Grid, row: nat, pen: Attrs)
    requires Rectangular(grid) && row < grid.rows
    requires Drawing(t, grid, row, OccupiedColumns(grid.lines[row]), pen)
    requires Reach(grid.lines[row], OccupiedColumns(grid.lines[row])) == OccupiedColumns(grid.lines[row])
    ensures Drawn(t.(pen := DEFAULT_ATTRS), grid, row + 1)
  {
  }

  // ----------------------------------------------------------------- the screen

  ghost predicate Begun(t: Screen, grid: Grid)
    requires Rectangular(grid)
  {
    Frame(t, grid) && t.cells == BlankCells(grid.rows, grid.cols)
  }

  function ModeText(grid: Grid): string {
    CsiText(true, [[1049]], if grid.alt then 'h' else 'l')
  }

  lemma BeginScreen(width: Width, grid: Grid)
    requires Rectangular(grid) && InDomain(width, grid)
    ensures Begun(Run(width, Fresh(grid.rows, grid.cols),
                      ModeText(grid) + ("\U{1b}]" + ("0;" + TitleText(grid.title)) + "\U{1b}\\")), grid)
  {
    var t := Fresh(grid.rows, grid.cols);
    RunCsi(width, t, true, [[1049]], if grid.alt then 'h' else 'l');
    var u := Run(width, t, ModeText(grid));
    PlainTitle(grid.title);
    RunTitle(width, u, grid.title);
    RunThen(width, t, ModeText(grid), u, "\U{1b}]" + ("0;" + TitleText(grid.title)) + "\U{1b}\\");
  }

  lemma {:induction false} PlainTitle(title: string)
    requires forall i :: 0 <= i < |title| ==> !IsControl(title[i])
    ensures TitleText(title) == title
  {
    if title != "" {
      PlainTitle(title[..|title| - 1]);
    }
  }

  lemma ClearScreen(width: Width, t: Screen, grid: Grid)
    requires Rectangular(grid) && Begun(t, grid)
    ensures Drawn(Run(width, t, CsiText(false, [[0]], 'm') + "\U{1b}[H" + CsiText(false, [[2]], 'J')), grid, 0)
  {
    RunCsi(width, t, false, [[0]], 'm');
    var u := Run(width, t, CsiText(false, [[0]], 'm'));
    RunHome(width, u);
    RunThen(width, t, CsiText(false, [[0]], 'm'), u, "\U{1b}[H");
    var v := Run(width, u, "\U{1b}[H");
    RunCsi(width, v, false, [[2]], 'J');
    RunThen(width, t, CsiText(false, [[0]], 'm') + "\U{1b}[H", v, CsiText(false, [[2]], 'J'));
  }

  /** The final cursor position completes the screen. */
  lemma PlaceCursor(width: Width, t: Screen, grid: Grid)
    requires Rectangular(grid) && InDomain(width, grid) && Drawn(t, grid, grid.rows)
    ensures Restores(Run(width, t, CsiText(false, [[grid.cursorRow + 1], [grid.cursorCol + 1]], 'H')), grid)
  {
    RunCsi(width, t, false, [[grid.cursorRow + 1], [grid.cursorCol + 1]], 'H');
  }

  /**
   * `render_snapshot`. Fed to a fresh terminal of the same size, the text it returns restores the
   * screen. Inside a row the terminal's pen is always the printer's `currentAttrs`.
   */
  method RenderSnapshot(grid: Grid, ghost width: Width) returns (out: string)
    requires Rectangular(grid)
    ensures InDomain(width, grid) ==> Restores(Run(width, Fresh(grid.rows, grid.cols), out), grid)
  {
    ghost var ok, fresh0 := InDomain(width, grid), Fresh(grid.rows, grid.cols);
    out := ModeText(grid);
    out := PushTitle(out, grid.title);
    if ok {
      BeginScreen(width, grid);
      ClearScreen(width, Run(width, fresh0, out), grid);
      RunThen(width, fresh0, out, Run(width, fresh0, out),
              CsiText(false, [[0]], 'm') + "\U{1b}[H" + CsiText(false, [[2]], 'J'));
    }
    out := out + (CsiText(false, [[0]], 'm') + "\U{1b}[H" + CsiText(false, [[2]], 'J'));
    for row := 0 to grid.rows
      invariant ok ==> Drawn(Run(width, fresh0, out), grid, row)
    {
      out := RenderRow(grid, row, out, width, fresh0);
    }
    if ok {
      var t := Run(width, fresh0, out);
      PlaceCursor(width, t, grid);
      RunThen(width, fresh0, out, t, CsiText(false, [[grid.cursorRow + 1], [grid.cursorCol + 1]], 'H'));
    }
    out := out + CsiText(false, [[grid.cursorRow + 1], [grid.cursorCol + 1]], 'H');
  }

  /** The body of the row loop. */
  method RenderRow(grid: Grid, row: nat, before: string, ghost width: Width, ghost start: Screen)
    returns (out: string)
    requires Rectangular(grid) && row < grid.rows
    requires InDomain(width, grid) ==> WellFormed(start) && Drawn(Run(width, start, before), grid, row)
    ensures InDomain(width, grid) ==> Drawn(Run(width, start, out), grid, row + 1)
  {
    ghost var ok := InDomain(width, grid);
    if ok {
      StartRow(width, Run(width, start, before), grid, row);
      RunConcat(width, start, before, CsiText(false, [[row + 1], [1]], 'H'));
    }
    out := before + CsiText(false, [[row + 1], [1]], 'H');
    var currentAttrs := DEFAULT_ATTRS;
    var line := grid.lines[row];
    var occupied := OccupiedColumns(line);
    for k := 0 to occupied
      invariant ok ==> Drawing(Run(width, start, out), grid, row, k, currentAttrs)
    {
      out, currentAttrs := RenderCell(grid, row, k, out, currentAttrs, width, start);
    }
    if ok {
      EndRow(width, Run(width, start, out), grid, row, currentAttrs);
      RunConcat(width, start, out, CsiText(false, [[0]], 'm'));
    }
    if currentAttrs != DEFAULT_ATTRS {
      out := out + CsiText(false, [[0]], 'm');
    }
  }

  /** The body of the cell loop. */
  method RenderCell(grid: Grid, row: nat, k: nat, before: string, pen: Attrs, ghost width: Width, ghost start: Screen)
    returns (out: string, currentAttrs: Attrs)
    requires Rectangular(grid) && row < grid.rows && k < OccupiedColumns(grid.lines[row])
    requires InDomain(width, grid) ==> WellFormed(start) && Drawing(Run(width, start, before), grid, row, k, pen)
    ensures InDomain(width, grid) ==> Drawing(Run(width, start, out), grid, row, k + 1, currentAttrs)
  {
    ghost var ok := InDomain(width, grid);
    var cell := grid.lines[row][k];
    out, currentAttrs := before, pen;
    if cell.glyph.shape.Spacer? || cell.glyph.shape.LeadingSpacer? {
      if ok {
        SkipCell(width, Run(width, start, before), grid, row, k, pen);
      }
      return;
    }
    if ok {
      assert LineOk(width, grid.lines[row]) && CellOk(width, grid.lines[row], k);
    }
    if cell.glyph.attrs != currentAttrs {
      out := PushSgr(out, cell.glyph.attrs);
      currentAttrs := cell.glyph.attrs;
      if ok {
        SetPen(width, Run(width, start, before), grid, row, k, pen, currentAttrs);
        RunConcat(width, start, before, CsiText(false, SgrParams(currentAttrs), 'm'));
      }
    }
    ghost var styled := out;
    out := PushCellText(out, cell);
    if ok {
      DrawCell(width, Run(width, start, styled), grid, row, k);
      RunConcat(width, start, styled, [cell.glyph.c] + cell.glyph.marks);
    }
  }
}
