/**
 * The watchface's composition buffer (src/c/main.c): a `rows` by `cols`
 * grid of cell states kept row-major in one flat buffer, so that the cell at
 * row `r`, column `c` lives at index `r * cols + c`. Glyphs are stamped into
 * it with clipping: a write whose cell lies outside the grid is skipped.
 */
module Grid {
  import opened Options
  import Common

  /** `CellState` of src/c/main.c, in the order of its codes 0..4. */
  datatype Cell = CellEmpty | CellPartial | CellFull | CellGray | CellGrayPartial

  /** A pattern entry: 0 empty, 1 partial (edges and curves), 2 full. */
  type Level = v: int | 0 <= v <= 2

  /** The state a pattern entry stamps: its own code, or in gray 2 as gray and 1 as gray partial; 0 stays empty either way. */
  function Shade(v: Level, gray: bool): (s: Cell)
    ensures s == CellEmpty <==> v == 0
    ensures !gray ==> (s == CellPartial <==> v == 1) && (s == CellFull <==> v == 2)
    ensures gray ==> (s == CellGrayPartial <==> v == 1) && (s == CellGray <==> v == 2)
  {
    if gray && v > 0 then (if v == 2 then CellGray else CellGrayPartial)
    else if v == 0 then CellEmpty
    else if v == 1 then CellPartial
    else CellFull
  }

  /** The code of a cell state: 0..2 as in the header's `CELL_EMPTY`..`CELL_FULL`, then gray 3 and gray partial 4. */
  function CellCode(s: Cell): (n: int)
    ensures 0 <= n <= 4
    ensures n <= 2 <==> !IsGray(s)
  {
    match s
    case CellEmpty => 0
    case CellPartial => 1
    case CellFull => 2
    case CellGray => 3
    case CellGrayPartial => 4
  }

  /**
   * `CellState state = pattern_value`: without gray a pattern entry stamps the
   * cell whose code is the entry itself, so the header's three codes name the
   * first three cell states; with gray, 2 becomes code 3 and 1 becomes code 4.
   */
  lemma ShadeCode(v: Level, gray: bool)
    ensures CellCode(Shade(v, gray)) == if gray && v > 0 then 5 - v else v
    ensures forall s: Common.CellState :: Common.Code(s) == v ==> CellCode(Shade(v, false)) == Common.Code(s)
  {
  }

  predicate IsGray(s: Cell)
  {
    s == CellGray || s == CellGrayPartial
  }

  predicate InGrid(rows: int, cols: int, r: int, c: int)
  {
    0 <= r < rows && 0 <= c < cols
  }

  // ---------------------------------------------------------------------------
  // Row-major indexing
  // ---------------------------------------------------------------------------

  lemma MulMono(a: int, b: int, w: int)
    requires a <= b && 0 <= w
    ensures a * w <= b * w
  {
    assert b * w - a * w == (b - a) * w;
  }

  /** Two positions of a row-major layout of width `w` coincide only if their rows and columns do. */
  lemma FlatUnique(a1: int, b1: int, a2: int, b2: int, w: int)
    requires 0 <= b1 < w && 0 <= b2 < w
    requires a1 * w + b1 == a2 * w + b2
    ensures a1 == a2 && b1 == b2
  {
    if a1 < a2 {
      MulMono(a1 + 1, a2, w);
      assert false;
    } else if a2 < a1 {
      MulMono(a2 + 1, a1, w);
      assert false;
    }
  }

  /** Row and column come back from the flat index by division and remainder. */
  lemma FlatIndex(r: int, c: int, cols: int)
    requires 0 <= c < cols
    ensures (r * cols + c) / cols == r && (r * cols + c) % cols == c
  {
    var i := r * cols + c;
    FlatUnique(i / cols, i % cols, r, c, cols);
  }

  /** Every cell of the grid has its index inside the buffer. */
  lemma FlatInRange(r: int, c: int, rows: int, cols: int)
    requires InGrid(rows, cols, r, c)
    ensures 0 <= r * cols + c < rows * cols
  {
    MulMono(0, r, cols);
    MulMono(r + 1, rows, cols);
  }

  /** Every index of the buffer is a cell of the grid. */
  lemma IndexInGrid(i: int, rows: int, cols: int)
    requires 0 <= i < rows * cols && 0 < cols
    ensures InGrid(rows, cols, i / cols, i % cols)
  {
    if i / cols >= rows {
      MulMono(rows, i / cols, cols);
      assert false;
    }
  }

  /** Writing cell `(r, c)` if it lies inside the grid; nothing otherwise. */
  function SetCell(buf: seq<Cell>, rows: int, cols: int, r: int, c: int, v: Cell): (b: seq<Cell>)
    requires |buf| == rows * cols
    ensures |b| == |buf|
  {
    if InGrid(rows, cols, r, c) then
      FlatInRange(r, c, rows, cols);
      buf[r * cols + c := v]
    else buf
  }

  // ---------------------------------------------------------------------------
  // Stamping
  // ---------------------------------------------------------------------------

  /** A glyph: a `width` by `height` pattern in row-major order; `skipZero` leaves the cells under its zero entries alone. */
  datatype Glyph = Glyph(width: nat, height: nat, pattern: seq<Level>, skipZero: bool)

  predicate WellFormed(gl: Glyph)
  {
    |gl.pattern| == gl.width * gl.height
  }

  /** Position `(dr, dc)` of a `w` by `h` box lies within its `w * h` entries. */
  lemma BoxIndex(dr: int, dc: int, w: int, h: int)
    requires 0 <= dr < h && 0 <= dc < w
    ensures 0 <= dr * w + dc < w * h
  {
    MulMono(0, dr, w);
    MulMono(dr + 1, h, w);
  }

  /** The pattern entry at row `dr`, column `dc` of a glyph. */
  function Entry(gl: Glyph, dr: int, dc: int): Level
    requires WellFormed(gl) && 0 <= dr < gl.height && 0 <= dc < gl.width
  {
    BoxIndex(dr, dc, gl.width, gl.height);
    gl.pattern[dr * gl.width + dc]
  }

  /** What a stamp writes: a glyph with its top-left cell at `(top, left)`, or the two 2x2 dots of the colon. */
  datatype Painter = GlyphAt(glyph: Glyph, left: int, top: int, gray: bool) | ColonAt(left: int, top: int)

  /** The position of the colon's cell `(dr, dc)` in its write order: upper dot then lower dot, each row by row. */
  function ColonOrder(dr: int, dc: int): int
  {
    (if dr >= 4 then 4 + (dr - 4) * 2 else (dr - 1) * 2) + dc
  }

  /** The colon covers columns 0..1 of rows 1..2 and 4..5 of its box. */
  predicate InColon(dr: int, dc: int)
  {
    0 <= dc < 2 && (dr == 1 || dr == 2 || dr == 4 || dr == 5)
  }

  /**
   * What the first `done` writes of a stamp put at cell `(r, c)`, grid or no
   * grid: `None` if none of them targets that cell.
   */
  function Paint(p: Painter, done: int, r: int, c: int): Option<Cell>
  {
    match p
    case GlyphAt(gl, left, top, gray) =>
      var dr := r - top;
      var dc := c - left;
      var k := dr * gl.width + dc;
      if 0 <= dr < gl.height && 0 <= dc < gl.width && k < done && 0 <= k < |gl.pattern| then
        var v := gl.pattern[k];
        if gl.skipZero && v == 0 then None else Some(Shade(v, gray))
      else None
    case ColonAt(left, top) =>
      if InColon(r - top, c - left) && ColonOrder(r - top, c - left) < done then Some(CellGrayPartial) else None
  }

  /** The buffer after the first `done` writes of a stamp, writes outside the grid skipped. */
  function Stamp(buf: seq<Cell>, rows: int, cols: int, p: Painter, done: int): (b: seq<Cell>)
    ensures |b| == |buf|
  {
    seq(|buf|, i requires 0 <= i < |buf| =>
      if 0 < cols && i / cols < rows then
        match Paint(p, done, i / cols, i % cols)
        case Some(v) => v
        case None => buf[i]
      else buf[i])
  }

  /** Before any write a stamp has changed nothing. */
  lemma StampNone(buf: seq<Cell>, rows: int, cols: int, p: Painter)
    ensures Stamp(buf, rows, cols, p, 0) == buf
  {
    forall i | 0 <= i < |buf| && 0 < cols
      ensures Paint(p, 0, i / cols, i % cols).None?
    {
      if p.GlyphAt? {
        var dr := i / cols - p.top;
        var dc := i % cols - p.left;
        if 0 <= dr && 0 <= dc {
          MulMono(0, dr, p.glyph.width);
        }
      }
    }
  }

  /**
   * One more write of a stamp: when the `(done+1)`th write targets cell
   * `(r0, c0)`, not written before, and nothing else, the buffer changes at
   * that cell's index if the cell lies inside the grid, and not at all
   * otherwise.
   */
  lemma StampStep(buf: seq<Cell>, rows: int, cols: int, p: Painter, done: int, r0: int, c0: int)
    requires |buf| == rows * cols
    requires Paint(p, done, r0, c0).None?
    requires forall r, c :: r != r0 || c != c0 ==> Paint(p, done + 1, r, c) == Paint(p, done, r, c)
    ensures Paint(p, done + 1, r0, c0).Some? ==>
      Stamp(buf, rows, cols, p, done + 1) == SetCell(Stamp(buf, rows, cols, p, done), rows, cols, r0, c0, Paint(p, done + 1, r0, c0).value)
    ensures Paint(p, done + 1, r0, c0).None? ==> Stamp(buf, rows, cols, p, done + 1) == Stamp(buf, rows, cols, p, done)
  {
    var a := Stamp(buf, rows, cols, p, done);
    var b := Stamp(buf, rows, cols, p, done + 1);
    var o := Paint(p, done + 1, r0, c0);
    var expected := if o.Some? then SetCell(a, rows, cols, r0, c0, o.value) else a;
    if InGrid(rows, cols, r0, c0) {
      FlatInRange(r0, c0, rows, cols);
    }
    forall i | 0 <= i < |buf|
      ensures b[i] == expected[i]
    {
      StampStepAt(buf, rows, cols, p, done, r0, c0, i);
    }
  }

  /** `StampStep` at one index `i` of the buffer. */
  lemma StampStepAt(buf: seq<Cell>, rows: int, cols: int, p: Painter, done: int, r0: int, c0: int, i: int)
    requires |buf| == rows * cols && 0 <= i < |buf|
    requires Paint(p, done, r0, c0).None?
    requires forall r, c :: r != r0 || c != c0 ==> Paint(p, done + 1, r, c) == Paint(p, done, r, c)
    ensures var hit := InGrid(rows, cols, r0, c0) && i == r0 * cols + c0 && Paint(p, done + 1, r0, c0).Some?;
            Stamp(buf, rows, cols, p, done + 1)[i] ==
              if hit then Paint(p, done + 1, r0, c0).value else Stamp(buf, rows, cols, p, done)[i]
  {
    var onCell := InGrid(rows, cols, r0, c0) && i == r0 * cols + c0;
    if onCell {
      FlatIndex(r0, c0, cols);
    }
    if 0 < cols && i / cols < rows {
      var r, c := i / cols, i % cols;
      if r == r0 && c == c0 {
        assert i == r0 * cols + c0;
      } else {
        assert Paint(p, done + 1, r, c) == Paint(p, done, r, c);
      }
    }
  }

  /**
   * A stamp seen cell by cell: a cell of the grid holds what the stamp
   * writes there, if anything, and its old state otherwise.
   */
  lemma StampAt(buf: seq<Cell>, rows: int, cols: int, p: Painter, done: int, r: int, c: int)
    requires |buf| == rows * cols && InGrid(rows, cols, r, c)
    ensures 0 <= r * cols + c < |buf|
    ensures Stamp(buf, rows, cols, p, done)[r * cols + c] ==
      match Paint(p, done, r, c)
      case Some(v) => v
      case None => buf[r * cols + c]
  {
    FlatInRange(r, c, rows, cols);
    FlatIndex(r, c, cols);
  }

  /** A glyph stamped in full writes every entry of its pattern, the entries of its box row by row, and nothing outside its box. */
  lemma GlyphComplete(gl: Glyph, left: int, top: int, gray: bool, r: int, c: int)
    requires WellFormed(gl)
    ensures var dr := r - top;
            var dc := c - left;
            Paint(GlyphAt(gl, left, top, gray), gl.width * gl.height, r, c) ==
              if 0 <= dr < gl.height && 0 <= dc < gl.width then
                (if gl.skipZero && Entry(gl, dr, dc) == 0 then None else Some(Shade(Entry(gl, dr, dc), gray)))
              else None
  {
    var dr := r - top;
    var dc := c - left;
    if 0 <= dr < gl.height && 0 <= dc < gl.width {
      BoxIndex(dr, dc, gl.width, gl.height);
    }
  }

  /**
   * The glyph loop's step: after `row * width + col` writes the next one
   * targets cell `(top + row, left + col)`, and nothing else changes.
   */
  lemma GlyphStep(gl: Glyph, left: int, top: int, gray: bool, row: int, col: int)
    requires WellFormed(gl) && 0 <= row < gl.height && 0 <= col < gl.width
    ensures var p := GlyphAt(gl, left, top, gray);
            var k := row * gl.width + col;
            && 0 <= k < |gl.pattern|
            && Paint(p, k, top + row, left + col).None?
            && Paint(p, k + 1, top + row, left + col) == (if gl.skipZero && gl.pattern[k] == 0 then None else Some(Shade(gl.pattern[k], gray)))
            && forall r, c :: r != top + row || c != left + col ==> Paint(p, k + 1, r, c) == Paint(p, k, r, c)
  {
    var p := GlyphAt(gl, left, top, gray);
    var k := row * gl.width + col;
    MulMono(0, row, gl.width);
    MulMono(row + 1, gl.height, gl.width);
    forall r, c | r != top + row || c != left + col
      ensures Paint(p, k + 1, r, c) == Paint(p, k, r, c)
    {
      var dr := r - top;
      var dc := c - left;
      if 0 <= dr < gl.height && 0 <= dc < gl.width && dr * gl.width + dc == k {
        FlatUnique(dr, dc, row, col, gl.width);
      }
    }
  }

  /** The colon loop's step: after `i * 4 + row * 2 + col` writes the next one targets cell `(top + 1 + 3i + row, left + col)`, and nothing else changes. */
  lemma ColonStep(left: int, top: int, i: int, row: int, col: int)
    requires 0 <= i < 2 && 0 <= row < 2 && 0 <= col < 2
    ensures var p := ColonAt(left, top);
            var k := i * 4 + row * 2 + col;
            var r0 := top + (if i == 0 then 1 else 4) + row;
            && Paint(p, k, r0, left + col).None?
            && Paint(p, k + 1, r0, left + col) == Some(CellGrayPartial)
            && forall r, c :: r != r0 || c != left + col ==> Paint(p, k + 1, r, c) == Paint(p, k, r, c)
  {
  }

  /** The glyph loop's step on buffers: entry `(row, col)` writes its shade to cell `(top + row, left + col)` if that cell is in the grid, except under a skipped zero. */
  lemma GlyphWrite(base: seq<Cell>, rows: int, cols: int, gl: Glyph, left: int, top: int, gray: bool, row: int, col: int)
    requires |base| == rows * cols
    requires WellFormed(gl) && 0 <= row < gl.height && 0 <= col < gl.width
    ensures 0 <= row * gl.width + col < |gl.pattern|
    ensures var p := GlyphAt(gl, left, top, gray);
            var k := row * gl.width + col;
            Stamp(base, rows, cols, p, k + 1) ==
              if gl.skipZero && gl.pattern[k] == 0 then Stamp(base, rows, cols, p, k)
              else SetCell(Stamp(base, rows, cols, p, k), rows, cols, top + row, left + col, Shade(gl.pattern[k], gray))
  {
    GlyphStep(gl, left, top, gray, row, col);
    StampStep(base, rows, cols, GlyphAt(gl, left, top, gray), row * gl.width + col, top + row, left + col);
  }

  /** The colon loop's step on buffers: the next write makes cell `(top + 1 + 3i + row, left + col)` gray partial if it is in the grid. */
  lemma ColonWrite(base: seq<Cell>, rows: int, cols: int, left: int, top: int, i: int, row: int, col: int)
    requires |base| == rows * cols
    requires 0 <= i < 2 && 0 <= row < 2 && 0 <= col < 2
    ensures var p := ColonAt(left, top);
            var k := i * 4 + row * 2 + col;
            Stamp(base, rows, cols, p, k + 1) ==
              SetCell(Stamp(base, rows, cols, p, k), rows, cols, top + (if i == 0 then 1 else 4) + row, left + col, CellGrayPartial)
  {
    ColonStep(left, top, i, row, col);
    StampStep(base, rows, cols, ColonAt(left, top), i * 4 + row * 2 + col, top + (if i == 0 then 1 else 4) + row, left + col);
  }

  /** The empty buffer of `n` cells. */
  function Blank(n: nat): (b: seq<Cell>)
    ensures |b| == n && forall i :: 0 <= i < n ==> b[i] == CellEmpty
  {
    seq(n, _ => CellEmpty)
  }

  /** A stamp that never writes a gray state leaves a buffer without gray cells without gray cells. */
  lemma StampKeepsColourless(buf: seq<Cell>, rows: int, cols: int, p: Painter, done: int)
    requires forall i :: 0 <= i < |buf| ==> !IsGray(buf[i])
    requires p.GlyphAt? && !p.gray
    ensures forall i :: 0 <= i < |buf| ==> !IsGray(Stamp(buf, rows, cols, p, done)[i])
  {
  }
}
