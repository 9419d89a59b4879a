/**
 * The glyphs the watchface stamps into its grid (src/c/main.c): the 5x7 time
 * digits, the 3x5 date digits, the date separator, the colon and the corner
 * markers, each as a function from the old buffer to the new one, and each
 * seen cell by cell by a lemma.
 */
module Glyphs {
  import opened Options
  import opened Grid

  /** The 5x7 digit patterns, `digit_patterns` of src/c/main.c. */
  const DIGITS: seq<seq<Level>> := [
    // 0
    [1, 2, 2, 2, 1,
     2, 0, 0, 0, 2,
     2, 0, 0, 0, 2,
     2, 0, 0, 0, 2,
     2, 0, 0, 0, 2,
     2, 0, 0, 0, 2,
     1, 2, 2, 2, 1],
    // 1
    [0, 0, 2, 0, 0,
     1, 2, 2, 0, 0,
     0, 0, 2, 0, 0,
     0, 0, 2, 0, 0,
     0, 0, 2, 0, 0,
     0, 0, 2, 0, 0,
     1, 2, 2, 2, 1],
    // 2
    [1, 2, 2, 2, 1,
     0, 0, 0, 0, 2,
     0, 0, 0, 0, 2,
     1, 2, 2, 2, 1,
     2, 0, 0, 0, 0,
     2, 0, 0, 0, 0,
     1, 2, 2, 2, 1],
    // 3
    [1, 2, 2, 2, 1,
     0, 0, 0, 0, 2,
     0, 0, 0, 0, 2,
     0, 1, 2, 2, 1,
     0, 0, 0, 0, 2,
     0, 0, 0, 0, 2,
     1, 2, 2, 2, 1],
    // 4
    [1, 0, 0, 0, 1,
     2, 0, 0, 0, 2,
     2, 0, 0, 0, 2,
     1, 2, 2, 2, 2,
     0, 0, 0, 0, 2,
     0, 0, 0, 0, 2,
     0, 0, 0, 0, 1],
    // 5
    [1, 2, 2, 2, 1,
     2, 0, 0, 0, 0,
     2, 0, 0, 0, 0,
     1, 2, 2, 2, 1,
     0, 0, 0, 0, 2,
     0, 0, 0, 0, 2,
     1, 2, 2, 2, 1],
    // 6
    [1, 2, 2, 2, 1,
     2, 0, 0, 0, 0,
     2, 0, 0, 0, 0,
     2, 2, 2, 2, 1,
     2, 0, 0, 0, 2,
     2, 0, 0, 0, 2,
     1, 2, 2, 2, 1],
    // 7
    [1, 2, 2, 2, 1,
     0, 0, 0, 0, 2,
     0, 0, 0, 0, 2,
     0, 0, 0, 0, 1,
     0, 0, 0, 2, 0,
     0, 0, 0, 2, 0,
     0, 0, 0, 1, 0],
    // 8
    [1, 2, 2, 2, 1,
     2, 0, 0, 0, 2,
     2, 0, 0, 0, 2,
     1, 2, 2, 2, 1,
     2, 0, 0, 0, 2,
     2, 0, 0, 0, 2,
     1, 2, 2, 2, 1],
    // 9
    [1, 2, 2, 2, 1,
     2, 0, 0, 0, 2,
     2, 0, 0, 0, 2,
     1, 2, 2, 2, 2,
     0, 0, 0, 0, 2,
     0, 0, 0, 0, 2,
     1, 2, 2, 2, 1]
  ]

  /** The 3x5 date digit patterns, `small_digit_patterns` of src/c/main.c. */
  const SMALL_DIGITS: seq<seq<Level>> := [
    // 0
    [1, 2, 1,
     2, 0, 2,
     2, 0, 2,
     2, 0, 2,
     1, 2, 1],
    // 1
    [1, 2, 0,
     0, 2, 0,
     0, 2, 0,
     0, 2, 0,
     1, 2, 1],
    // 2
    [1, 2, 1,
     0, 0, 2,
     1, 2, 1,
     2, 0, 0,
     1, 2, 1],
    // 3
    [1, 2, 1,
     0, 0, 2,
     0, 2, 1,
     0, 0, 2,
     1, 2, 1],
    // 4
    [1, 0, 1,
     2, 0, 2,
     1, 2, 2,
     0, 0, 2,
     0, 0, 1],
    // 5
    [1, 2, 1,
     2, 0, 0,
     1, 2, 1,
     0, 0, 2,
     1, 2, 1],
    // 6
    [1, 2, 1,
     2, 0, 0,
     2, 2, 1,
     2, 0, 2,
     1, 2, 1],
    // 7
    [1, 2, 1,
     0, 0, 2,
     0, 0, 1,
     0, 2, 0,
     0, 1, 0],
    // 8
    [1, 2, 1,
     2, 0, 2,
     1, 2, 1,
     2, 0, 2,
     1, 2, 1],
    // 9
    [1, 2, 1,
     2, 0, 2,
     1, 2, 2,
     0, 0, 2,
     1, 2, 1]
  ]

  /** The 3x5 date separator, `slash_pattern` of src/c/main.c: a short vertical bar in the middle column. */
  const SLASH: seq<Level> := [0, 0, 0,
                              0, 1, 0,
                              0, 2, 0,
                              0, 1, 0,
                              0, 0, 0]

  function DigitGlyph(d: int): (gl: Glyph)
    requires 0 <= d <= 9
    ensures WellFormed(gl) && gl.width == 5 && gl.height == 7 && !gl.skipZero
  {
    Glyph(5, 7, DIGITS[d], false)
  }

  function SmallDigitGlyph(d: int): (gl: Glyph)
    requires 0 <= d <= 9
    ensures WellFormed(gl) && gl.width == 3 && gl.height == 5 && !gl.skipZero
  {
    Glyph(3, 5, SMALL_DIGITS[d], false)
  }

  function SlashGlyph(): (gl: Glyph)
    ensures WellFormed(gl) && gl.width == 3 && gl.height == 5 && gl.skipZero
  {
    Glyph(3, 5, SLASH, true)
  }

  // ---------------------------------------------------------------------------
  // The stamps, on buffers
  // ---------------------------------------------------------------------------

  /** `draw_digit_to_grid_colored`: nothing for a digit outside 0..9, otherwise all 35 writes of its pattern. */
  function DigitStamp(buf: seq<Cell>, rows: int, cols: int, d: int, left: int, top: int, gray: bool): (b: seq<Cell>)
    ensures |b| == |buf|
  {
    if 0 <= d <= 9 then Stamp(buf, rows, cols, GlyphAt(DigitGlyph(d), left, top, gray), 35) else buf
  }

  /** `draw_small_digit_to_grid_colored`: nothing for a digit outside 0..9, otherwise all 15 writes of its pattern. */
  function SmallDigitStamp(buf: seq<Cell>, rows: int, cols: int, d: int, left: int, top: int, gray: bool): (b: seq<Cell>)
    ensures |b| == |buf|
  {
    if 0 <= d <= 9 then Stamp(buf, rows, cols, GlyphAt(SmallDigitGlyph(d), left, top, gray), 15) else buf
  }

  /** `draw_small_slash_to_grid`: the non-zero entries of the separator. */
  function SlashStamp(buf: seq<Cell>, rows: int, cols: int, left: int, top: int, gray: bool): (b: seq<Cell>)
    ensures |b| == |buf|
  {
    Stamp(buf, rows, cols, GlyphAt(SlashGlyph(), left, top, gray), 15)
  }

  /** `draw_colon_to_grid`: the eight cells of its two dots. */
  function ColonStamp(buf: seq<Cell>, rows: int, cols: int, left: int, top: int): (b: seq<Cell>)
    ensures |b| == |buf|
  {
    Stamp(buf, rows, cols, ColonAt(left, top), 8)
  }

  /** `draw_corners`: on a grid of at least two rows and two columns, three writes per corner in this order; nothing otherwise. */
  function Corners(buf: seq<Cell>, rows: int, cols: int): (b: seq<Cell>)
    requires |buf| == rows * cols
    ensures |b| == |buf|
  {
    if rows > 1 && cols > 1 then
      var b1 := SetCell(buf, rows, cols, 0, 0, CellPartial);
      var b2 := SetCell(b1, rows, cols, 0, 1, CellFull);
      var b3 := SetCell(b2, rows, cols, 1, 0, CellFull);
      var b4 := SetCell(b3, rows, cols, 0, cols - 2, CellFull);
      var b5 := SetCell(b4, rows, cols, 0, cols - 1, CellPartial);
      var b6 := SetCell(b5, rows, cols, 1, cols - 1, CellFull);
      var b7 := SetCell(b6, rows, cols, rows - 2, 0, CellFull);
      var b8 := SetCell(b7, rows, cols, rows - 1, 0, CellPartial);
      var b9 := SetCell(b8, rows, cols, rows - 1, 1, CellFull);
      var b10 := SetCell(b9, rows, cols, rows - 2, cols - 1, CellFull);
      var b11 := SetCell(b10, rows, cols, rows - 1, cols - 2, CellFull);
      SetCell(b11, rows, cols, rows - 1, cols - 1, CellPartial)
    else buf
  }

  /** The state the corner markers leave at cell `(r, c)`: that of the last of their writes to it, if any. */
  function CornerMark(rows: int, cols: int, r: int, c: int): Option<Cell>
  {
    if rows <= 1 || cols <= 1 then None
    else if r == rows - 1 && c == cols - 1 then Some(CellPartial)
    else if r == rows - 1 && c == cols - 2 then Some(CellFull)
    else if r == rows - 2 && c == cols - 1 then Some(CellFull)
    else if r == rows - 1 && c == 1 then Some(CellFull)
    else if r == rows - 1 && c == 0 then Some(CellPartial)
    else if r == rows - 2 && c == 0 then Some(CellFull)
    else if r == 1 && c == cols - 1 then Some(CellFull)
    else if r == 0 && c == cols - 1 then Some(CellPartial)
    else if r == 0 && c == cols - 2 then Some(CellFull)
    else if r == 1 && c == 0 then Some(CellFull)
    else if r == 0 && c == 1 then Some(CellFull)
    else if r == 0 && c == 0 then Some(CellPartial)
    else None
  }

  // ---------------------------------------------------------------------------
  // The stamps, cell by cell
  // ---------------------------------------------------------------------------

  /**
   * A digit stamp changes nothing for a digit outside 0..9; otherwise a cell
   * of its 5x7 box takes the shade of its pattern entry, zeros included, and
   * every other cell keeps its state.
   */
  lemma DigitStampAt(buf: seq<Cell>, rows: int, cols: int, d: int, left: int, top: int, gray: bool, r: int, c: int)
    requires |buf| == rows * cols && InGrid(rows, cols, r, c)
    ensures 0 <= r * cols + c < |buf|
    ensures DigitStamp(buf, rows, cols, d, left, top, gray)[r * cols + c] ==
      if 0 <= d <= 9 && 0 <= r - top < 7 && 0 <= c - left < 5 then Shade(DIGITS[d][(r - top) * 5 + (c - left)], gray)
      else buf[r * cols + c]
  {
    FlatInRange(r, c, rows, cols);
    if 0 <= d <= 9 {
      var gl := DigitGlyph(d);
      StampAt(buf, rows, cols, GlyphAt(gl, left, top, gray), 35, r, c);
      GlyphComplete(gl, left, top, gray, r, c);
      if 0 <= r - top < gl.height && 0 <= c - left < gl.width {
        assert (r - top) * gl.width == (r - top) * 5;
        assert Entry(gl, r - top, c - left) == DIGITS[d][(r - top) * 5 + (c - left)];
      }
    }
  }

  /** The same for a date digit and its 3x5 box. */
  lemma SmallDigitStampAt(buf: seq<Cell>, rows: int, cols: int, d: int, left: int, top: int, gray: bool, r: int, c: int)
    requires |buf| == rows * cols && InGrid(rows, cols, r, c)
    ensures 0 <= r * cols + c < |buf|
    ensures SmallDigitStamp(buf, rows, cols, d, left, top, gray)[r * cols + c] ==
      if 0 <= d <= 9 && 0 <= r - top < 5 && 0 <= c - left < 3 then Shade(SMALL_DIGITS[d][(r - top) * 3 + (c - left)], gray)
      else buf[r * cols + c]
  {
    FlatInRange(r, c, rows, cols);
    if 0 <= d <= 9 {
      var gl := SmallDigitGlyph(d);
      StampAt(buf, rows, cols, GlyphAt(gl, left, top, gray), 15, r, c);
      GlyphComplete(gl, left, top, gray, r, c);
      if 0 <= r - top < gl.height && 0 <= c - left < gl.width {
        assert (r - top) * gl.width == (r - top) * 3;
        assert Entry(gl, r - top, c - left) == SMALL_DIGITS[d][(r - top) * 3 + (c - left)];
      }
    }
  }

  /** The separator writes only where its pattern is non-zero; the cells under its zeros keep their state. */
  lemma SlashStampAt(buf: seq<Cell>, rows: int, cols: int, left: int, top: int, gray: bool, r: int, c: int)
    requires |buf| == rows * cols && InGrid(rows, cols, r, c)
    ensures 0 <= r * cols + c < |buf|
    ensures SlashStamp(buf, rows, cols, left, top, gray)[r * cols + c] ==
      if 0 <= r - top < 5 && 0 <= c - left < 3 && SLASH[(r - top) * 3 + (c - left)] != 0 then Shade(SLASH[(r - top) * 3 + (c - left)], gray)
      else buf[r * cols + c]
  {
    StampAt(buf, rows, cols, GlyphAt(SlashGlyph(), left, top, gray), 15, r, c);
    GlyphComplete(SlashGlyph(), left, top, gray, r, c);
  }

  /** The colon makes gray partial exactly the cells of columns `left..left+1` in rows `top+1..top+2` and `top+4..top+5`. */
  lemma ColonStampAt(buf: seq<Cell>, rows: int, cols: int, left: int, top: int, r: int, c: int)
    requires |buf| == rows * cols && InGrid(rows, cols, r, c)
    ensures 0 <= r * cols + c < |buf|
    ensures ColonStamp(buf, rows, cols, left, top)[r * cols + c] ==
      if left <= c <= left + 1 && (top + 1 <= r <= top + 2 || top + 4 <= r <= top + 5) then CellGrayPartial
      else buf[r * cols + c]
  {
    StampAt(buf, rows, cols, ColonAt(left, top), 8, r, c);
  }

  /** Writing cell `(r0, c0)` seen at cell `(r, c)` of the grid. */
  lemma SetCellAt(buf: seq<Cell>, rows: int, cols: int, r0: int, c0: int, v: Cell, r: int, c: int)
    requires |buf| == rows * cols && InGrid(rows, cols, r, c)
    ensures 0 <= r * cols + c < |buf|
    ensures SetCell(buf, rows, cols, r0, c0, v)[r * cols + c] == if r == r0 && c == c0 then v else buf[r * cols + c]
  {
    FlatInRange(r, c, rows, cols);
    if InGrid(rows, cols, r0, c0) && (r != r0 || c != c0) && r * cols + c == r0 * cols + c0 {
      FlatUnique(r, c, r0, c0, cols);
    }
  }

  /** The corner markers seen cell by cell: the last of their writes to a cell wins, and a cell none of them names keeps its state. */
  lemma CornersAt(buf: seq<Cell>, rows: int, cols: int, r: int, c: int)
    requires |buf| == rows * cols && InGrid(rows, cols, r, c)
    ensures 0 <= r * cols + c < |buf|
    ensures Corners(buf, rows, cols)[r * cols + c] ==
      match CornerMark(rows, cols, r, c)
      case Some(v) => v
      case None => buf[r * cols + c]
  {
    FlatInRange(r, c, rows, cols);
    if rows > 1 && cols > 1 {
      var b1 := SetCell(buf, rows, cols, 0, 0, CellPartial);
      var b2 := SetCell(b1, rows, cols, 0, 1, CellFull);
      var b3 := SetCell(b2, rows, cols, 1, 0, CellFull);
      var b4 := SetCell(b3, rows, cols, 0, cols - 2, CellFull);
      var b5 := SetCell(b4, rows, cols, 0, cols - 1, CellPartial);
      var b6 := SetCell(b5, rows, cols, 1, cols - 1, CellFull);
      var b7 := SetCell(b6, rows, cols, rows - 2, 0, CellFull);
      var b8 := SetCell(b7, rows, cols, rows - 1, 0, CellPartial);
      var b9 := SetCell(b8, rows, cols, rows - 1, 1, CellFull);
      var b10 := SetCell(b9, rows, cols, rows - 2, cols - 1, CellFull);
      var b11 := SetCell(b10, rows, cols, rows - 1, cols - 2, CellFull);
      SetCellAt(buf, rows, cols, 0, 0, CellPartial, r, c);
      SetCellAt(b1, rows, cols, 0, 1, CellFull, r, c);
      SetCellAt(b2, rows, cols, 1, 0, CellFull, r, c);
      SetCellAt(b3, rows, cols, 0, cols - 2, CellFull, r, c);
      SetCellAt(b4, rows, cols, 0, cols - 1, CellPartial, r, c);
      SetCellAt(b5, rows, cols, 1, cols - 1, CellFull, r, c);
      SetCellAt(b6, rows, cols, rows - 2, 0, CellFull, r, c);
      SetCellAt(b7, rows, cols, rows - 1, 0, CellPartial, r, c);
      SetCellAt(b8, rows, cols, rows - 1, 1, CellFull, r, c);
      SetCellAt(b9, rows, cols, rows - 2, cols - 1, CellFull, r, c);
      SetCellAt(b10, rows, cols, rows - 1, cols - 2, CellFull, r, c);
      SetCellAt(b11, rows, cols, rows - 1, cols - 1, CellPartial, r, c);
    }
  }

  /**
   * Where the corner markers overlap on a narrow grid the later writes win:
   * the bottom-right corner always ends partial, the top-right one needs
   * three rows, the bottom-left one three columns and the top-left one both.
   */
  lemma CornerTips(buf: seq<Cell>, rows: int, cols: int)
    requires |buf| == rows * cols && rows > 1 && cols > 1
    ensures 0 <= (rows - 1) * cols + (cols - 1) < |buf|
    ensures Corners(buf, rows, cols)[0 * cols + 0] == CellPartial <==> rows >= 3 && cols >= 3
    ensures Corners(buf, rows, cols)[0 * cols + (cols - 1)] == CellPartial <==> rows >= 3
    ensures Corners(buf, rows, cols)[(rows - 1) * cols + 0] == CellPartial <==> cols >= 3
    ensures Corners(buf, rows, cols)[(rows - 1) * cols + (cols - 1)] == CellPartial
  {
    CornersAt(buf, rows, cols, 0, 0);
    CornersAt(buf, rows, cols, 0, cols - 1);
    CornersAt(buf, rows, cols, rows - 1, 0);
    CornersAt(buf, rows, cols, rows - 1, cols - 1);
  }

  /** A date digit or separator stamped without gray, and the corner markers, bring no gray cell into a buffer without one. */
  lemma ColourlessStamps(buf: seq<Cell>, rows: int, cols: int, d: int, left: int, top: int)
    requires |buf| == rows * cols
    requires forall i :: 0 <= i < |buf| ==> !IsGray(buf[i])
    ensures forall i :: 0 <= i < |buf| ==> !IsGray(DigitStamp(buf, rows, cols, d, left, top, false)[i])
    ensures forall i :: 0 <= i < |buf| ==> !IsGray(SmallDigitStamp(buf, rows, cols, d, left, top, false)[i])
    ensures forall i :: 0 <= i < |buf| ==> !IsGray(SlashStamp(buf, rows, cols, left, top, false)[i])
    ensures forall i :: 0 <= i < |buf| ==> !IsGray(Corners(buf, rows, cols)[i])
  {
    if 0 <= d <= 9 {
      StampKeepsColourless(buf, rows, cols, GlyphAt(DigitGlyph(d), left, top, false), 35);
      StampKeepsColourless(buf, rows, cols, GlyphAt(SmallDigitGlyph(d), left, top, false), 15);
    }
    StampKeepsColourless(buf, rows, cols, GlyphAt(SlashGlyph(), left, top, false), 15);
  }
}
