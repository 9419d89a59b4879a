/**
 * The watchface itself (src/c/main.c): the grid sized to the screen, the
 * buffer cleared and stamped with the time, the colon, the date and the corner
 * markers on every tick, and each cell drawn as a small square. The time
 * fields, the 24-hour setting and whether the display has colour are inputs;
 * the platform's clock, layers and drawing calls are not modelled.
 */
module Watchface {
  import opened Options
  import opened Common
  import opened Grid
  import opened Glyphs

  /** `CELL_SIZE`: the side of a grid cell in pixels. */
  const CELL_SIZE: int := 6

  // ---------------------------------------------------------------------------
  // C integer division
  // ---------------------------------------------------------------------------

  /** C's `/` by a positive divisor: the quotient truncated toward zero (characterised with `Rem` below). */
  function Quot(a: int, b: int): int
    requires b > 0
  {
    if a >= 0 then a / b else -((-a) / b)
  }

  /** C's `%` by a positive divisor: quotient times divisor plus remainder is the dividend, and the remainder takes the sign of the dividend. */
  function Rem(a: int, b: int): (m: int)
    requires b > 0
    ensures Quot(a, b) * b + m == a
    ensures a >= 0 ==> 0 <= m < b
    ensures a < 0 ==> -b < m <= 0
  {
    a - Quot(a, b) * b
  }

  // ---------------------------------------------------------------------------
  // What update_time computes
  // ---------------------------------------------------------------------------

  /** The hour shown: as it is in 24-hour style, otherwise reduced modulo 12 with 0 shown as 12. */
  function DisplayHour(hour: int, is24h: bool): int
  {
    if is24h then hour
    else
      var h := Rem(hour, 12);
      if h == 0 then 12 else h
  }

  /** In 12-hour style every hour of the day shows as 1..12, congruent to it modulo 12. */
  lemma TwelveHourRange(hour: int)
    requires 0 <= hour
    ensures 1 <= DisplayHour(hour, false) <= 12
    ensures DisplayHour(hour, false) % 12 == hour % 12
  {
  }

  /** A number below 100 splits into a tens and a ones digit, each in 0..9. */
  lemma DigitSplit(n: int)
    requires 0 <= n < 100
    ensures 0 <= Quot(n, 10) <= 9 && 0 <= Rem(n, 10) <= 9
    ensures Quot(n, 10) * 10 + Rem(n, 10) == n
  {
  }

  /** Where `update_time` places each glyph: the rows of the time and the date, and the left column of every glyph. */
  datatype Layout = Layout(
    timeRow: int, dateRow: int,
    hourTens: int, hourOnes: int, colon: int, minuteTens: int, minuteOnes: int,
    dayTens: int, dayOnes: int, slash: int, monthTens: int, monthOnes: int)

  /** The time is 26 columns wide with one-column gaps on grids wider than 24 columns, 22 without. */
  function TimeWidth(cols: int): int
  {
    if cols > 24 then 26 else 22
  }

  /** The date is 19 columns wide with gaps, 15 without. */
  function DateWidth(cols: int): int
  {
    if cols > 24 then 19 else 15
  }

  /** The layout of `update_time`: each glyph's column is the previous one's plus its width and the gap. */
  function LayoutOf(rows: int, cols: int): Layout
  {
    var gap := if cols > 24 then 1 else 0;
    var colonGap := if gap == 1 then gap else 0;
    var startRow := Quot(rows - (7 + 2 + 5), 2);
    var c1 := Quot(cols - TimeWidth(cols), 2);
    var c2 := c1 + 5 + gap;
    var c3 := c2 + 5 + gap;
    var c4 := c3 + 2 + colonGap;
    var c5 := c4 + 5 + gap;
    var d1 := Quot(cols - DateWidth(cols), 2);
    var d2 := d1 + 3 + gap;
    var d3 := d2 + 3 + gap;
    var d4 := d3 + 3 + gap;
    var d5 := d4 + 3 + gap;
    Layout(startRow, startRow + 7 + 2, c1, c2, c3, c4, c5, d1, d2, d3, d4, d5)
  }

  /**
   * The layout's promises: the last minute digit ends exactly the time width
   * after the first hour digit, the last month digit the date width after
   * the first day digit, both blocks centred with C division, the glyphs of
   * a line side by side without overlap and the date two rows below the time.
   */
  lemma LayoutSpans(rows: int, cols: int)
    ensures var l := LayoutOf(rows, cols);
            && l.minuteOnes + 5 == l.hourTens + TimeWidth(cols)
            && l.monthOnes + 3 == l.dayTens + DateWidth(cols)
            && l.hourTens == Quot(cols - TimeWidth(cols), 2)
            && l.dayTens == Quot(cols - DateWidth(cols), 2)
            && l.hourTens + 5 <= l.hourOnes && l.hourOnes + 5 <= l.colon && l.colon + 2 <= l.minuteTens && l.minuteTens + 5 <= l.minuteOnes
            && l.dayTens + 3 <= l.dayOnes && l.dayOnes + 3 <= l.slash && l.slash + 3 <= l.monthTens && l.monthTens + 3 <= l.monthOnes
            && l.dateRow == l.timeRow + 7 + 2
  {
  }

  /** On a grid that holds them, the time and the date lie inside it, centred to within one column and one row. */
  lemma LayoutFits(rows: int, cols: int)
    requires rows >= 14 && cols >= TimeWidth(cols)
    ensures var l := LayoutOf(rows, cols);
            && 0 <= l.timeRow && l.dateRow + 5 <= rows
            && 0 <= l.hourTens && l.minuteOnes + 5 <= cols
            && 0 <= l.dayTens && l.monthOnes + 3 <= cols
            && 0 <= (cols - (l.minuteOnes + 5)) - l.hourTens <= 1
            && 0 <= (rows - (l.dateRow + 5)) - l.timeRow <= 1
  {
  }

  /**
   * The grid after `update_time`: cleared, then the hour digits (a leading
   * zero in gray on colour displays and left out on monochrome ones), the
   * colon on colour displays only, the minute digits, the date (gray on
   * colour displays) and the corner markers. `mon` is `tm_mon`, counted from 0.
   */
  function TimeFace(rows: nat, cols: nat, hour: int, minute: int, mday: int, mon: int, is24h: bool, color: bool): (b: seq<Cell>)
    ensures |b| == rows * cols
  {
    Corners(FaceDate(rows, cols, hour, minute, mday, mon, is24h, color), rows, cols)
  }

  /** The cleared grid with the time line of `update_time` stamped on it. */
  function FaceTime(rows: nat, cols: nat, hour: int, minute: int, is24h: bool, color: bool): (b: seq<Cell>)
    ensures |b| == rows * cols
  {
    var h := DisplayHour(hour, is24h);
    TimeLine(Blank(rows * cols), rows, cols, LayoutOf(rows, cols), Quot(h, 10), Rem(h, 10), Quot(minute, 10), Rem(minute, 10), color)
  }

  /** The face before the corner markers: the time line, then the date line. */
  function FaceDate(rows: nat, cols: nat, hour: int, minute: int, mday: int, mon: int, is24h: bool, color: bool): (b: seq<Cell>)
    ensures |b| == rows * cols
  {
    var month := mon + 1;
    DateLine(FaceTime(rows, cols, hour, minute, is24h, color), rows, cols, LayoutOf(rows, cols),
             Quot(mday, 10), Rem(mday, 10), Quot(month, 10), Rem(month, 10), color)
  }

  /** The time line of `update_time`: hour digits `h1 h2`, the colon, minute digits `m1 m2`, at the layout's columns. */
  function TimeLine(buf: seq<Cell>, rows: int, cols: int, l: Layout, h1: int, h2: int, m1: int, m2: int, color: bool): (b: seq<Cell>)
    ensures |b| == |buf|
  {
    DigitStamp(HoursColonTens(buf, rows, cols, l, h1, h2, m1, color), rows, cols, m2, l.minuteOnes, l.timeRow, false)
  }

  /** The time line up to the minute's tens digit: what the minute's ones digit is stamped over. */
  function HoursColonTens(buf: seq<Cell>, rows: int, cols: int, l: Layout, h1: int, h2: int, m1: int, color: bool): (b: seq<Cell>)
    ensures |b| == |buf|
  {
    var b1 :=
      if h1 == 0 then (if color then DigitStamp(buf, rows, cols, 0, l.hourTens, l.timeRow, true) else buf)
      else DigitStamp(buf, rows, cols, h1, l.hourTens, l.timeRow, false);
    var b2 := DigitStamp(b1, rows, cols, h2, l.hourOnes, l.timeRow, false);
    var b3 := if color then ColonStamp(b2, rows, cols, l.colon, l.timeRow) else b2;
    DigitStamp(b3, rows, cols, m1, l.minuteTens, l.timeRow, false)
  }

  /** The date line of `update_time`: day digits `d1 d2`, the separator, month digits `mo1 mo2`, at the layout's columns. */
  function DateLine(buf: seq<Cell>, rows: int, cols: int, l: Layout, d1: int, d2: int, mo1: int, mo2: int, color: bool): (b: seq<Cell>)
    ensures |b| == |buf|
  {
    var b6 := SmallDigitStamp(buf, rows, cols, d1, l.dayTens, l.dateRow, color);
    var b7 := SmallDigitStamp(b6, rows, cols, d2, l.dayOnes, l.dateRow, color);
    var b8 := SlashStamp(b7, rows, cols, l.slash, l.dateRow, color);
    var b9 := SmallDigitStamp(b8, rows, cols, mo1, l.monthTens, l.dateRow, color);
    SmallDigitStamp(b9, rows, cols, mo2, l.monthOnes, l.dateRow, color)
  }

  /** On a monochrome display the face holds no gray cell at all. */
  lemma MonochromeFace(rows: nat, cols: nat, hour: int, minute: int, mday: int, mon: int, is24h: bool)
    ensures forall i :: 0 <= i < rows * cols ==> !IsGray(TimeFace(rows, cols, hour, minute, mday, mon, is24h, false)[i])
  {
    var l := LayoutOf(rows, cols);
    var h := DisplayHour(hour, is24h);
    var month := mon + 1;
    var b0 := Blank(rows * cols);
    TimeLineColourless(b0, rows, cols, l, Quot(h, 10), Rem(h, 10), Quot(minute, 10), Rem(minute, 10));
    var time := FaceTime(rows, cols, hour, minute, is24h, false);
    DateLineColourless(time, rows, cols, l, Quot(mday, 10), Rem(mday, 10), Quot(month, 10), Rem(month, 10));
    ColourlessStamps(FaceDate(rows, cols, hour, minute, mday, mon, is24h, false), rows, cols, 0, 0, 0);
  }

  /** Without colour the time line brings no gray cell: the gray leading zero and the colon are left out. */
  lemma TimeLineColourless(buf: seq<Cell>, rows: int, cols: int, l: Layout, h1: int, h2: int, m1: int, m2: int)
    requires |buf| == rows * cols
    requires forall i :: 0 <= i < |buf| ==> !IsGray(buf[i])
    ensures forall i :: 0 <= i < |buf| ==> !IsGray(TimeLine(buf, rows, cols, l, h1, h2, m1, m2, false)[i])
  {
    var b1 := if h1 == 0 then buf else DigitStamp(buf, rows, cols, h1, l.hourTens, l.timeRow, false);
    ColourlessStamps(buf, rows, cols, h1, l.hourTens, l.timeRow);
    var b2 := DigitStamp(b1, rows, cols, h2, l.hourOnes, l.timeRow, false);
    ColourlessStamps(b1, rows, cols, h2, l.hourOnes, l.timeRow);
    var b4 := DigitStamp(b2, rows, cols, m1, l.minuteTens, l.timeRow, false);
    ColourlessStamps(b2, rows, cols, m1, l.minuteTens, l.timeRow);
    assert HoursColonTens(buf, rows, cols, l, h1, h2, m1, false) == b4;
    ColourlessStamps(b4, rows, cols, m2, l.minuteOnes, l.timeRow);
  }

  /** Without colour the date line brings no gray cell. */
  lemma DateLineColourless(buf: seq<Cell>, rows: int, cols: int, l: Layout, d1: int, d2: int, mo1: int, mo2: int)
    requires |buf| == rows * cols
    requires forall i :: 0 <= i < |buf| ==> !IsGray(buf[i])
    ensures forall i :: 0 <= i < |buf| ==> !IsGray(DateLine(buf, rows, cols, l, d1, d2, mo1, mo2, false)[i])
  {
    var b6 := SmallDigitStamp(buf, rows, cols, d1, l.dayTens, l.dateRow, false);
    ColourlessStamps(buf, rows, cols, d1, l.dayTens, l.dateRow);
    var b7 := SmallDigitStamp(b6, rows, cols, d2, l.dayOnes, l.dateRow, false);
    ColourlessStamps(b6, rows, cols, d2, l.dayOnes, l.dateRow);
    var b8 := SlashStamp(b7, rows, cols, l.slash, l.dateRow, false);
    ColourlessStamps(b7, rows, cols, 0, l.slash, l.dateRow);
    var b9 := SmallDigitStamp(b8, rows, cols, mo1, l.monthTens, l.dateRow, false);
    ColourlessStamps(b8, rows, cols, mo1, l.monthTens, l.dateRow);
    ColourlessStamps(b9, rows, cols, mo2, l.monthOnes, l.dateRow);
  }

  /** The date line leaves every row above the date row as it was. */
  lemma DateLineAbove(buf: seq<Cell>, rows: int, cols: int, l: Layout, d1: int, d2: int, mo1: int, mo2: int, color: bool, r: int, c: int)
    requires |buf| == rows * cols && InGrid(rows, cols, r, c) && r < l.dateRow
    ensures 0 <= r * cols + c < |buf|
    ensures DateLine(buf, rows, cols, l, d1, d2, mo1, mo2, color)[r * cols + c] == buf[r * cols + c]
  {
    var b6 := SmallDigitStamp(buf, rows, cols, d1, l.dayTens, l.dateRow, color);
    var b7 := SmallDigitStamp(b6, rows, cols, d2, l.dayOnes, l.dateRow, color);
    var b8 := SlashStamp(b7, rows, cols, l.slash, l.dateRow, color);
    var b9 := SmallDigitStamp(b8, rows, cols, mo1, l.monthTens, l.dateRow, color);
    SmallDigitStampAt(buf, rows, cols, d1, l.dayTens, l.dateRow, color, r, c);
    SmallDigitStampAt(b6, rows, cols, d2, l.dayOnes, l.dateRow, color, r, c);
    SlashStampAt(b7, rows, cols, l.slash, l.dateRow, color, r, c);
    SmallDigitStampAt(b8, rows, cols, mo1, l.monthTens, l.dateRow, color, r, c);
    SmallDigitStampAt(b9, rows, cols, mo2, l.monthOnes, l.dateRow, color, r, c);
  }

  /** The minute's ones digit is the last glyph of the time line, so its box shows that digit's pattern. */
  lemma TimeLineEndsWithMinute(buf: seq<Cell>, rows: int, cols: int, l: Layout, h1: int, h2: int, m1: int, m2: int, color: bool, r: int, c: int)
    requires |buf| == rows * cols && InGrid(rows, cols, r, c)
    requires 0 <= m2 <= 9 && 0 <= r - l.timeRow < 7 && 0 <= c - l.minuteOnes < 5
    ensures 0 <= r * cols + c < |buf|
    ensures TimeLine(buf, rows, cols, l, h1, h2, m1, m2, color)[r * cols + c] ==
      Shade(DIGITS[m2][(r - l.timeRow) * 5 + (c - l.minuteOnes)], false)
  {
    DigitStampAt(HoursColonTens(buf, rows, cols, l, h1, h2, m1, color), rows, cols, m2, l.minuteOnes, l.timeRow, false, r, c);
  }

  /**
   * The minute's ones digit survives on the face: a cell of its box that no
   * corner marker names shows that digit's pattern entry, because the date
   * lies below the time and nothing after the digit writes there.
   */
  lemma MinuteOnesShown(rows: nat, cols: nat, hour: int, minute: int, mday: int, mon: int, is24h: bool, color: bool, r: int, c: int)
    requires 0 <= minute
    requires InGrid(rows, cols, r, c) && CornerMark(rows, cols, r, c).None?
    requires var l := LayoutOf(rows, cols);
             0 <= r - l.timeRow < 7 && 0 <= c - l.minuteOnes < 5
    ensures 0 <= r * cols + c < rows * cols
    ensures var l := LayoutOf(rows, cols);
            TimeFace(rows, cols, hour, minute, mday, mon, is24h, color)[r * cols + c] ==
              Shade(DIGITS[Rem(minute, 10)][(r - l.timeRow) * 5 + (c - l.minuteOnes)], false)
  {
    FlatInRange(r, c, rows, cols);
    CornersAt(FaceDate(rows, cols, hour, minute, mday, mon, is24h, color), rows, cols, r, c);
    FaceDateKeepsTime(rows, cols, hour, minute, mday, mon, is24h, color, r, c);
    FaceTimeMinute(rows, cols, hour, minute, is24h, color, r, c);
  }

  /** The date line does not reach the rows of the time. */
  lemma FaceDateKeepsTime(rows: nat, cols: nat, hour: int, minute: int, mday: int, mon: int, is24h: bool, color: bool, r: int, c: int)
    requires InGrid(rows, cols, r, c) && r < LayoutOf(rows, cols).dateRow
    ensures 0 <= r * cols + c < rows * cols
    ensures FaceDate(rows, cols, hour, minute, mday, mon, is24h, color)[r * cols + c] == FaceTime(rows, cols, hour, minute, is24h, color)[r * cols + c]
  {
    var month := mon + 1;
    DateLineAbove(FaceTime(rows, cols, hour, minute, is24h, color), rows, cols, LayoutOf(rows, cols),
                  Quot(mday, 10), Rem(mday, 10), Quot(month, 10), Rem(month, 10), color, r, c);
  }

  /** The box of the minute's ones digit on the time line shows that digit. */
  lemma FaceTimeMinute(rows: nat, cols: nat, hour: int, minute: int, is24h: bool, color: bool, r: int, c: int)
    requires 0 <= minute && InGrid(rows, cols, r, c)
    requires var l := LayoutOf(rows, cols);
             0 <= r - l.timeRow < 7 && 0 <= c - l.minuteOnes < 5
    ensures 0 <= r * cols + c < rows * cols
    ensures FaceTime(rows, cols, hour, minute, is24h, color)[r * cols + c] ==
              Shade(DIGITS[Rem(minute, 10)][(r - LayoutOf(rows, cols).timeRow) * 5 + (c - LayoutOf(rows, cols).minuteOnes)], false)
  {
    var l := LayoutOf(rows, cols);
    var h := DisplayHour(hour, is24h);
    var m2 := Rem(minute, 10);
    var t := TimeLine(Blank(rows * cols), rows, cols, l, Quot(h, 10), Rem(h, 10), Quot(minute, 10), m2, color);
    assert FaceTime(rows, cols, hour, minute, is24h, color) == t;
    TimeLineEndsWithMinute(Blank(rows * cols), rows, cols, l, Quot(h, 10), Rem(h, 10), Quot(minute, 10), m2, color, r, c);
  }

  // ---------------------------------------------------------------------------
  // Screen geometry
  // ---------------------------------------------------------------------------

  /** The grid `prv_window_load` fits to a `width` by `height` screen: as many whole cells as fit, the spare pixels split evenly. */
  datatype Sizing = Sizing(cols: int, rows: int, offsetX: int, offsetY: int)

  function GridSize(width: int, height: int): Sizing
    requires 0 <= width && 0 <= height
  {
    var cols := width / CELL_SIZE;
    var rows := height / CELL_SIZE;
    Sizing(cols, rows, (width - cols * CELL_SIZE) / 2, (height - rows * CELL_SIZE) / 2)
  }

  /** The grid is the largest whole number of cells, and the pixels left over are split with at most one more on the right or bottom. */
  lemma GridCentred(width: int, height: int)
    requires 0 <= width && 0 <= height
    ensures var s := GridSize(width, height);
            && 0 <= s.cols && 0 <= s.rows
            && 0 <= width - s.cols * CELL_SIZE < CELL_SIZE
            && 0 <= height - s.rows * CELL_SIZE < CELL_SIZE
            && 0 <= (width - s.cols * CELL_SIZE) - 2 * s.offsetX <= 1
            && 0 <= (height - s.rows * CELL_SIZE) - 2 * s.offsetY <= 1
  {
  }

  /** The colours `draw_cell` uses. */
  datatype Colour = White | LightGray

  /**
   * `draw_cell`: the square a cell state fills inside its cell at column
   * `col`, row `row` of a grid placed at `(offsetX, offsetY)`, and its colour;
   * nothing for an empty cell.
   */
  function CellSquare(offsetX: int, offsetY: int, col: int, row: int, s: Cell): Option<(Rect, Colour)>
  {
    var x := offsetX + col * CELL_SIZE;
    var y := offsetY + row * CELL_SIZE;
    match s
    case CellFull => Some((Rect(x + 1, y + 1, 4, 4), White))
    case CellPartial => Some((Rect(x + 2, y + 2, 2, 2), White))
    case CellGray => Some((Rect(x + 1, y + 1, 4, 4), LightGray))
    case CellGrayPartial => Some((Rect(x + 2, y + 2, 2, 2), LightGray))
    case CellEmpty => None
  }

  /**
   * Every non-empty state draws a square centred in its cell, with equal
   * padding on all four sides; full and gray squares are 4 pixels wide,
   * partial ones 2; gray states draw in light gray, the others in white.
   */
  lemma CellSquareCentred(offsetX: int, offsetY: int, col: int, row: int, s: Cell)
    ensures CellSquare(offsetX, offsetY, col, row, s).None? <==> s == CellEmpty
    ensures CellSquare(offsetX, offsetY, col, row, s).Some? ==>
      var (rect, colour) := CellSquare(offsetX, offsetY, col, row, s).value;
      var x := offsetX + col * CELL_SIZE;
      var y := offsetY + row * CELL_SIZE;
      && rect.w == rect.h
      && rect.x - x == (x + CELL_SIZE) - (rect.x + rect.w) == rect.y - y == (y + CELL_SIZE) - (rect.y + rect.h)
      && (rect.w == 4 <==> s == CellFull || s == CellGray)
      && (rect.w == 2 <==> s == CellPartial || s == CellGrayPartial)
      && (colour == LightGray <==> IsGray(s))
  {
  }

  // ---------------------------------------------------------------------------
  // The watchface's state
  // ---------------------------------------------------------------------------

  class Face {
    var cols: int
    var rows: int
    var offsetX: int
    var offsetY: int
    /** `s_grid_data`: cell `(r, c)` at index `r * cols + c`. */
    var grid: array<Cell>

    predicate Valid()
      reads this
    {
      0 <= rows && 0 <= cols && grid.Length == rows * cols
    }

    /**
     * `prv_window_load` on a `width` by `height` screen: size the grid,
     * allocate and clear it, then show the time once.
     */
    constructor Load(width: int, height: int, hour: int, minute: int, mday: int, mon: int, is24h: bool, color: bool)
      requires 0 <= width && 0 <= height
      ensures Valid() && fresh(grid)
      ensures Sizing(cols, rows, offsetX, offsetY) == GridSize(width, height)
      ensures grid[..] == TimeFace(rows, cols, hour, minute, mday, mon, is24h, color)
    {
      var c := width / CELL_SIZE;
      var r := height / CELL_SIZE;
      var gridWidth := c * CELL_SIZE;
      var gridHeight := r * CELL_SIZE;
      cols := c;
      rows := r;
      offsetX := (width - gridWidth) / 2;
      offsetY := (height - gridHeight) / 2;
      grid := new Cell[r * c];
      new;
      InitGridEmpty();
      UpdateTime(hour, minute, mday, mon, is24h, color);
    }

    /** `init_grid_empty`: every cell empty. */
    method InitGridEmpty()
      requires Valid()
      modifies grid
      ensures grid[..] == Blank(rows * cols)
    {
      for i := 0 to rows * cols
        invariant forall j :: 0 <= j < i ==> grid[j] == CellEmpty
      {
        grid[i] := CellEmpty;
      }
    }

    /**
     * The loop the patterned glyphs share (`draw_digit_to_grid_colored`,
     * `draw_small_digit_to_grid_colored`, `draw_small_slash_to_grid`): the
     * box row by row, each cell inside the grid written with the entry's
     * state, or left alone under a zero entry when the glyph skips zeros.
     */
    method StampGlyph(gl: Glyph, left: int, top: int, gray: bool)
      requires Valid() && WellFormed(gl)
      modifies grid
      ensures grid[..] == Stamp(old(grid[..]), rows, cols, GlyphAt(gl, left, top, gray), gl.width * gl.height)
    {
      ghost var p := GlyphAt(gl, left, top, gray);
      ghost var done := 0;
      StampNone(grid[..], rows, cols, p);
      for row := 0 to gl.height
        invariant done == row * gl.width
        invariant grid[..] == Stamp(old(grid[..]), rows, cols, p, done)
      {
        for col := 0 to gl.width
          invariant done == row * gl.width + col
          invariant grid[..] == Stamp(old(grid[..]), rows, cols, p, done)
        {
          StampEntry(gl, left, top, gray, row, col, old(grid[..]));
          done := done + 1;
        }
        assert done == (row + 1) * gl.width;
      }
      assert done == gl.width * gl.height;
    }

    /** The body of the glyph loop for entry `(row, col)`: after it, one more write of the stamp over `base` is done. */
    method StampEntry(gl: Glyph, left: int, top: int, gray: bool, row: int, col: int, ghost base: seq<Cell>)
      requires Valid() && WellFormed(gl) && 0 <= row < gl.height && 0 <= col < gl.width && |base| == rows * cols
      requires grid[..] == Stamp(base, rows, cols, GlyphAt(gl, left, top, gray), row * gl.width + col)
      modifies grid
      ensures grid[..] == Stamp(base, rows, cols, GlyphAt(gl, left, top, gray), row * gl.width + col + 1)
    {
      var gridCol := left + col;
      var gridRow := top + row;
      GlyphWrite(base, rows, cols, gl, left, top, gray, row, col);
      if gridRow >= 0 && gridRow < rows && gridCol >= 0 && gridCol < cols {
        var v := gl.pattern[row * gl.width + col];
        if !(gl.skipZero && v == 0) {
          var state := if v == 0 then CellEmpty else if v == 1 then CellPartial else CellFull;
          if gray && v > 0 {
            state := if v == 2 then CellGray else CellGrayPartial;
          }
          FlatInRange(gridRow, gridCol, rows, cols);
          grid[gridRow * cols + gridCol] := state;
        }
      }
    }

    /** `draw_digit_to_grid_colored`. */
    method DrawDigit(digit: int, startCol: int, startRow: int, useGray: bool)
      requires Valid()
      modifies grid
      ensures grid[..] == DigitStamp(old(grid[..]), rows, cols, digit, startCol, startRow, useGray)
    {
      if digit < 0 || digit > 9 {
        return;
      }
      StampGlyph(DigitGlyph(digit), startCol, startRow, useGray);
    }

    /** `draw_small_digit_to_grid_colored`. */
    method DrawSmallDigit(digit: int, startCol: int, startRow: int, useGray: bool)
      requires Valid()
      modifies grid
      ensures grid[..] == SmallDigitStamp(old(grid[..]), rows, cols, digit, startCol, startRow, useGray)
    {
      if digit < 0 || digit > 9 {
        return;
      }
      StampGlyph(SmallDigitGlyph(digit), startCol, startRow, useGray);
    }

    /** `draw_small_slash_to_grid`. */
    method DrawSmallSlash(startCol: int, startRow: int, useGray: bool)
      requires Valid()
      modifies grid
      ensures grid[..] == SlashStamp(old(grid[..]), rows, cols, startCol, startRow, useGray)
    {
      StampGlyph(SlashGlyph(), startCol, startRow, useGray);
    }

    /** `draw_colon_to_grid`: two 2x2 dots of gray partial cells, at rows 1 and 4 of the box. */
    method DrawColon(startCol: int, startRow: int)
      requires Valid()
      modifies grid
      ensures grid[..] == ColonStamp(old(grid[..]), rows, cols, startCol, startRow)
    {
      ghost var p := ColonAt(startCol, startRow);
      StampNone(grid[..], rows, cols, p);
      for i := 0 to 2
        invariant grid[..] == Stamp(old(grid[..]), rows, cols, p, i * 4)
      {
        var baseRow := startRow + (if i == 0 then 1 else 4);
        DrawDot(startCol, startRow, i, baseRow, old(grid[..]));
      }
    }

    /** Dot `i` of the colon: the 2x2 block with its top-left cell at `(baseRow, startCol)`, the next four writes of the colon over `base`. */
    method DrawDot(startCol: int, startRow: int, i: int, baseRow: int, ghost base: seq<Cell>)
      requires Valid() && 0 <= i < 2 && baseRow == startRow + (if i == 0 then 1 else 4) && |base| == rows * cols
      requires grid[..] == Stamp(base, rows, cols, ColonAt(startCol, startRow), i * 4)
      modifies grid
      ensures grid[..] == Stamp(base, rows, cols, ColonAt(startCol, startRow), i * 4 + 4)
    {
      ghost var p := ColonAt(startCol, startRow);
      for row := 0 to 2
        invariant grid[..] == Stamp(base, rows, cols, p, i * 4 + row * 2)
      {
        for col := 0 to 2
          invariant grid[..] == Stamp(base, rows, cols, p, i * 4 + row * 2 + col)
        {
          var gridRow := baseRow + row;
          var gridCol := startCol + col;
          ColonWrite(base, rows, cols, startCol, startRow, i, row, col);
          if gridRow >= 0 && gridRow < rows && gridCol >= 0 && gridCol < cols {
            FlatInRange(gridRow, gridCol, rows, cols);
            grid[gridRow * cols + gridCol] := CellGrayPartial;
          }
        }
      }
    }

    /** `draw_corners`: a chevron of three cells in each corner. */
    method DrawCorners()
      requires Valid()
      modifies grid
      ensures grid[..] == Corners(old(grid[..]), rows, cols)
    {
      if rows > 1 && cols > 1 {
        SetGridCell(0, 0, CellPartial);
        SetGridCell(0, 1, CellFull);
        SetGridCell(1, 0, CellFull);
      }
      if rows > 1 && cols > 1 {
        SetGridCell(0, cols - 2, CellFull);
        SetGridCell(0, cols - 1, CellPartial);
        SetGridCell(1, cols - 1, CellFull);
      }
      if rows > 1 && cols > 1 {
        SetGridCell(rows - 2, 0, CellFull);
        SetGridCell(rows - 1, 0, CellPartial);
        SetGridCell(rows - 1, 1, CellFull);
      }
      if rows > 1 && cols > 1 {
        SetGridCell(rows - 2, cols - 1, CellFull);
        SetGridCell(rows - 1, cols - 2, CellFull);
        SetGridCell(rows - 1, cols - 1, CellPartial);
      }
    }

    /** One write of `draw_corners`: `s_grid_data[r * cols + c] = v` for a cell inside the grid. */
    method SetGridCell(r: int, c: int, v: Cell)
      requires Valid() && InGrid(rows, cols, r, c)
      modifies grid
      ensures grid[..] == SetCell(old(grid[..]), rows, cols, r, c, v)
    {
      FlatInRange(r, c, rows, cols);
      grid[r * cols + c] := v;
    }

    /**
     * `update_time` for the local time `hour`:`minute` on day `mday` of month
     * `mon` (counted from 0); `is24h` is the user's clock style and `color`
     * whether the display has colour.
     */
    method UpdateTime(hour: int, minute: int, mday: int, mon: int, is24h: bool, color: bool)
      requires Valid()
      modifies grid
      ensures grid[..] == TimeFace(rows, cols, hour, minute, mday, mon, is24h, color)
    {
      var h := hour;
      var month := mon + 1;
      if !is24h {
        h := Rem(h, 12);
        if h == 0 {
          h := 12;
        }
      }
      InitGridEmpty();
      var h1 := Quot(h, 10);
      var h2 := Rem(h, 10);
      var m1 := Quot(minute, 10);
      var m2 := Rem(minute, 10);
      var d1 := Quot(mday, 10);
      var d2 := Rem(mday, 10);
      var mo1 := Quot(month, 10);
      var mo2 := Rem(month, 10);
      var digitSpacing := if cols > 24 then 1 else 0;
      var colonSpacing := if digitSpacing == 1 then digitSpacing else 0;
      var timeWidth := if digitSpacing == 1 then 26 else 22;
      var smallDigitSpacing := if cols > 24 then 1 else 0;
      var dateWidth := if smallDigitSpacing == 1 then 19 else 15;
      var totalHeight := 7 + 2 + 5;
      var startRow := Quot(rows - totalHeight, 2);
      var dateRow := startRow + 7 + 2;
      var startCol := Quot(cols - timeWidth, 2);
      var dateStartCol := Quot(cols - dateWidth, 2);
      DrawTime(h1, h2, m1, m2, startCol, startRow, digitSpacing, colonSpacing, color);
      DrawDate(d1, d2, mo1, mo2, dateStartCol, dateRow, smallDigitSpacing, color);
      DrawCorners();
    }

    /** The time part of `update_time`: hours, colon and minutes, each glyph's column advanced from `startCol`. */
    method DrawTime(h1: int, h2: int, m1: int, m2: int, startCol: int, startRow: int, digitSpacing: int, colonSpacing: int, color: bool)
      requires Valid()
      requires var l := LayoutOf(rows, cols);
               startCol == l.hourTens && startRow == l.timeRow
      requires digitSpacing == (if cols > 24 then 1 else 0) && colonSpacing == digitSpacing
      modifies grid
      ensures grid[..] == TimeLine(old(grid[..]), rows, cols, LayoutOf(rows, cols), h1, h2, m1, m2, color)
    {
      var currentCol := startCol;
      if h1 == 0 {
        if color {
          DrawDigit(0, currentCol, startRow, true);
        }
      } else {
        DrawDigit(h1, currentCol, startRow, false);
      }
      currentCol := currentCol + 5 + digitSpacing;
      DrawDigit(h2, currentCol, startRow, false);
      currentCol := currentCol + 5 + digitSpacing;
      if color {
        DrawColon(currentCol, startRow);
      }
      currentCol := currentCol + 2 + colonSpacing;
      DrawDigit(m1, currentCol, startRow, false);
      currentCol := currentCol + 5 + digitSpacing;
      DrawDigit(m2, currentCol, startRow, false);
    }

    /** The date block of `update_time`: day, separator and month in small glyphs, each column advanced from `dateStartCol`. */
    method DrawDate(d1: int, d2: int, mo1: int, mo2: int, dateStartCol: int, dateRow: int, smallDigitSpacing: int, color: bool)
      requires Valid()
      requires var l := LayoutOf(rows, cols);
               dateStartCol == l.dayTens && dateRow == l.dateRow
      requires smallDigitSpacing == (if cols > 24 then 1 else 0)
      modifies grid
      ensures grid[..] == DateLine(old(grid[..]), rows, cols, LayoutOf(rows, cols), d1, d2, mo1, mo2, color)
    {
      var dateCol := dateStartCol;
      DrawSmallDigit(d1, dateCol, dateRow, color);
      dateCol := dateCol + 3 + smallDigitSpacing;
      DrawSmallDigit(d2, dateCol, dateRow, color);
      dateCol := dateCol + 3 + smallDigitSpacing;
      DrawSmallSlash(dateCol, dateRow, color);
      dateCol := dateCol + 3 + smallDigitSpacing;
      DrawSmallDigit(mo1, dateCol, dateRow, color);
      dateCol := dateCol + 3 + smallDigitSpacing;
      DrawSmallDigit(mo2, dateCol, dateRow, color);
    }
  }
}
