/**
 * The matrix-rain generator (src/c/animations/matrix.c). Each column is
 * reseeded from its index; the two values drawn give the column a start time
 * and a speed. A column's stream has a head row, which falls from row -1 to
 * the last row, and a trail above it that alternates full/secondary and
 * partial/foreground; once the head reaches the bottom the column fades on its
 * own clock. The head row and the column fade are computed in single-precision
 * floating point from the animation progress, the global fade and the two keys
 * of the column; here that computation is an input `view` from the keys to
 * the column's outcome.
 */
module Matrix {
  import opened Options
  import opened Common
  import opened Sweep

  /** The per-column reseed: `c*2654435761 + saved`, wrapping. */
  function ColumnSeed(c: int, saved: bv32): bv32
  {
    U32(c) * ROW_MIX + saved
  }

  /** The numerator of `col_start`: `rand_val % 200`, so the start time is `StartKey(v) / 1000`. */
  function StartKey(v: bv32): (k: int)
    ensures 0 <= k < 200
  {
    (v as int) % 200
  }

  /** The hundredths of `col_speed` above 0.8: `rand_val2 % 40`. */
  function SpeedKey(v: bv32): (k: int)
    ensures 0 <= k < 40
  {
    (v as int) % 40
  }

  /**
   * The outcome of the column's floating-point computations: the column has
   * not started (`col_progress < 0`), has faded away at the bottom
   * (`col_fade < 0.1`), or is drawn with head row `head` (clamped to the last
   * row once it got there) and per-column fade `colFade`. The view is a
   * function of the two integer keys the reseed yields.
   */
  datatype ColumnView = NotStarted | FadedOut | Stream(head: real, colFade: real)

  /** C's conversion of a `float` to `int`: truncation toward zero. */
  function Trunc(x: real): (n: int)
    ensures x >= 0.0 ==> n as real <= x < n as real + 1.0
    ensures x < 0.0 ==> n as real - 1.0 < x <= n as real
  {
    if x >= 0.0 then x.Floor else -((-x).Floor)
  }

  /** Rows within half a row of the head. */
  predicate IsHead(head: real, r: int)
  {
    r as real >= head - 0.5 && r as real <= head + 0.5
  }

  /**
   * The row part of the loop body for a drawn column: nothing below the head
   * or under a column fade of 0.3; the head full in the foreground colour;
   * the trail alternating by the truncated distance to the head.
   */
  function TrailFill(g: GridParams, head: real, colFade: real, c: int, r: int): Option<Fill>
  {
    if r as real > head + 0.5 then None
    else if colFade < 0.3 then None
    else if IsHead(head, r) then Some(Fill(CellRect(g, r, c, Full), Foreground))
    else
      var t := Trunc(head - r as real);
      if t % 2 == 0 then Some(Fill(CellRect(g, r, c, Full), Secondary))
      else Some(Fill(CellRect(g, r, c, Partial), Foreground))
  }

  /** The outcome of column `c` in a frame whose saved seed is `saved`: both values drawn after the column's reseed feed the view. */
  function ViewAt(view: (int, int) -> ColumnView, saved: bv32, c: int): ColumnView
  {
    var n := Noise(ColumnSeed(c, saved));
    view(StartKey(n.0), SpeedKey(n.1))
  }

  /** What column `c`, row `r` draws in a frame whose saved seed is `saved`. */
  function CellFill(g: GridParams, view: (int, int) -> ColumnView, saved: bv32, c: int, r: int): Option<Fill>
  {
    var v := ViewAt(view, saved, c);
    if v.Stream? then TrailFill(g, v.head, v.colFade, c, r) else None
  }

  function Cells(g: GridParams, view: (int, int) -> ColumnView, saved: bv32): (int, int) -> Option<Fill>
  {
    (c, r) => CellFill(g, view, saved, c, r)
  }

  /** `cells` agrees with `CellFill` everywhere: the cell function the drawing loops follow. */
  ghost predicate IsCells(cells: (int, int) -> Option<Fill>, g: GridParams, view: (int, int) -> ColumnView, saved: bv32)
  {
    forall c, r {:trigger CellFill(g, view, saved, c, r)} :: cells(c, r) == CellFill(g, view, saved, c, r)
  }

  /** Column `c` of `cells` follows a stream with head `head` and column fade `colFade`. */
  ghost predicate IsTrail(cells: (int, int) -> Option<Fill>, g: GridParams, head: real, colFade: real, c: int)
  {
    forall r {:trigger TrailFill(g, head, colFade, c, r)} :: cells(c, r) == TrailFill(g, head, colFade, c, r)
  }

  /** The fills of one frame, columns outside and rows inside. */
  function Fills(g: GridParams, view: (int, int) -> ColumnView, saved: bv32): seq<Fill>
  {
    Frame(g.cols, g.rows, Cells(g, view, saved))
  }

  /** `matrix_init_seed`: set the file-local state. */
  method InitSeed(rng: Lcg, seed: bv32)
    modifies rng
    ensures rng.seed == seed
  {
    rng.Seed(seed);
  }

  /**
   * `draw_matrix_animation`: the frame's fills, computed by reseeding the
   * file-local generator for every column, and the generator's state put
   * back as it was.
   */
  method Draw(rng: Lcg, g: GridParams, view: (int, int) -> ColumnView) returns (fills: seq<Fill>)
    modifies rng
    ensures rng.seed == old(rng.seed)
    ensures fills == Fills(g, view, old(rng.seed))
  {
    var saved := rng.seed;
    fills := DrawColumns(rng, g, view, saved, Cells(g, view, saved));
    rng.seed := saved;
  }

  /** The outer loop: columns left to right. */
  method DrawColumns(rng: Lcg, g: GridParams, view: (int, int) -> ColumnView, saved: bv32, ghost cells: (int, int) -> Option<Fill>) returns (fills: seq<Fill>)
    requires IsCells(cells, g, view, saved)
    modifies rng
    ensures fills == Frame(g.cols, g.rows, cells)
  {
    fills := [];
    var c := 0;
    while c < g.cols
      invariant 0 <= c && (c == 0 || c <= g.cols)
      invariant fills == Frame(c, g.rows, cells)
    {
      var line := DrawColumn(rng, g, view, saved, cells, c);
      FrameStep(c, g.rows, cells);
      fills := fills + line;
      c := c + 1;
    }
    assert c == g.cols || (g.cols <= 0 && c == 0);
  }

  /** The column part of the loop body: reseed, draw twice, look up the column's outcome, then draw its rows. */
  method DrawColumn(rng: Lcg, g: GridParams, view: (int, int) -> ColumnView, saved: bv32, ghost cells: (int, int) -> Option<Fill>, c: int) returns (line: seq<Fill>)
    requires IsCells(cells, g, view, saved)
    modifies rng
    ensures line == Line(c, g.rows, cells)
  {
    rng.seed := ColumnSeed(c, saved);
    var v1 := rng.Next();
    var v2 := rng.Next();
    assert (v1, v2) == Noise(ColumnSeed(c, saved));
    var v := view((v1 as int) % 200, (v2 as int) % 40);
    assert v == ViewAt(view, saved, c);
    if !v.Stream? {
      ColumnSilent(cells, g, view, saved, c);
      return [];
    }
    ColumnFollowsView(cells, g, view, saved, c);
    line := DrawTrail(g, v.head, v.colFade, c, cells);
  }

  /** The inner loop: rows top to bottom of a drawn column. */
  method DrawTrail(g: GridParams, head: real, colFade: real, c: int, ghost cells: (int, int) -> Option<Fill>) returns (line: seq<Fill>)
    requires IsTrail(cells, g, head, colFade, c)
    ensures line == Line(c, g.rows, cells)
  {
    line := [];
    var r := 0;
    while r < g.rows
      invariant 0 <= r && (r == 0 || r <= g.rows)
      invariant line == Line(c, r, cells)
    {
      var cell: Option<Fill> := None;
      if !(r as real > head + 0.5) && !(colFade < 0.3) {
        if r as real >= head - 0.5 && r as real <= head + 0.5 {
          cell := Some(Fill(CellRect(g, r, c, Full), Foreground));
        } else {
          var trailPos := Trunc(head - r as real);
          if trailPos % 2 == 0 {
            cell := Some(Fill(CellRect(g, r, c, Full), Secondary));
          } else {
            cell := Some(Fill(CellRect(g, r, c, Partial), Foreground));
          }
        }
      }
      assert cell == TrailFill(g, head, colFade, c, r);
      LineStep(c, r, cells);
      line := line + Emit(cell);
      r := r + 1;
    }
    assert r == g.rows || (g.rows <= 0 && r == 0);
  }

  /** A column that has not started or has faded out draws no row. */
  lemma ColumnSilent(cells: (int, int) -> Option<Fill>, g: GridParams, view: (int, int) -> ColumnView, saved: bv32, c: int)
    requires IsCells(cells, g, view, saved)
    requires !ViewAt(view, saved, c).Stream?
    ensures Line(c, g.rows, cells) == []
  {
    forall r | 0 <= r < g.rows
      ensures cells(c, r).None?
    {
      assert cells(c, r) == CellFill(g, view, saved, c, r);
    }
    LineSilent(c, g.rows, cells);
  }

  /** A drawn column draws what its head and column fade dictate for every row. */
  lemma ColumnFollowsView(cells: (int, int) -> Option<Fill>, g: GridParams, view: (int, int) -> ColumnView, saved: bv32, c: int)
    requires IsCells(cells, g, view, saved)
    requires ViewAt(view, saved, c).Stream?
    ensures IsTrail(cells, g, ViewAt(view, saved, c).head, ViewAt(view, saved, c).colFade, c)
  {
    var v := ViewAt(view, saved, c);
    forall r
      ensures cells(c, r) == TrailFill(g, v.head, v.colFade, c, r)
    {
      assert cells(c, r) == CellFill(g, view, saved, c, r);
    }
  }

  // ---------------------------------------------------------------------------
  // Properties of a frame
  // ---------------------------------------------------------------------------

  /** The fills of a frame are exactly the fills of the positions inside the grid that draw. */
  lemma {:induction false} FrameContents(g: GridParams, view: (int, int) -> ColumnView, saved: bv32, f: Fill)
    ensures f in Fills(g, view, saved) <==>
      exists c, r :: 0 <= c < g.cols && 0 <= r < g.rows && CellFill(g, view, saved, c, r) == Some(f)
  {
    var cells := Cells(g, view, saved);
    FrameMembers(g.cols, g.rows, cells, f);
    assert forall c, r :: cells(c, r) == CellFill(g, view, saved, c, r);
  }

  /**
   * Every row of a column sees the same two values: what row `r` draws depends
   * on the column only through the outcome of the column's one reseed.
   */
  lemma ColumnSharesValues(g: GridParams, view: (int, int) -> ColumnView, saved: bv32, c: int, r: int)
    ensures var n := Draws(ColumnSeed(c, saved), 2);
            var v := view(StartKey(n[0]), SpeedKey(n[1]));
            CellFill(g, view, saved, c, r) == (if v.Stream? then TrailFill(g, v.head, v.colFade, c, r) else None)
  {
  }

  /** A column that has not started, or has faded out, draws nothing in any row. */
  lemma {:induction false} SilentColumnsBlank(g: GridParams, view: (int, int) -> ColumnView, saved: bv32, f: Fill)
    requires f in Fills(g, view, saved)
    ensures exists c, r :: 0 <= c < g.cols && 0 <= r < g.rows && ViewAt(view, saved, c).Stream? && CellFill(g, view, saved, c, r) == Some(f)
  {
    FrameContents(g, view, saved, f);
  }

  /** The drawn rows of a column form a block from the top row down: drawing row `r2` implies drawing every row above it. */
  lemma DrawnRowsFromTop(g: GridParams, head: real, colFade: real, c: int, r1: int, r2: int)
    requires r1 <= r2
    requires TrailFill(g, head, colFade, c, r2).Some?
    ensures TrailFill(g, head, colFade, c, r1).Some?
  {
  }

  /** Exactly the rows at or above `head + 0.5` are drawn when the column fade is at least 0.3, and none otherwise. */
  lemma DrawnRows(g: GridParams, head: real, colFade: real, c: int, r: int)
    ensures TrailFill(g, head, colFade, c, r).Some? <==> (r as real <= head + 0.5 && colFade >= 0.3)
  {
  }

  /** The head is drawn full in the foreground colour whenever the column is visible. */
  lemma HeadIsBright(g: GridParams, head: real, colFade: real, c: int, r: int)
    requires IsHead(head, r) && colFade >= 0.3
    ensures TrailFill(g, head, colFade, c, r) == Some(Fill(CellRect(g, r, c, Full), Foreground))
  {
  }

  /** A trail row at truncated distance `t` from the head: full and secondary for even `t`, partial and foreground for odd `t`. */
  lemma TrailParity(g: GridParams, head: real, colFade: real, c: int, r: int)
    requires colFade >= 0.3 && r as real < head - 0.5
    ensures var t := Trunc(head - r as real);
            && t >= 0
            && (t % 2 == 0 ==> TrailFill(g, head, colFade, c, r) == Some(Fill(CellRect(g, r, c, Full), Secondary)))
            && (t % 2 == 1 ==> TrailFill(g, head, colFade, c, r) == Some(Fill(CellRect(g, r, c, Partial), Foreground)))
  {
  }

  /** Adjacent trail rows alternate: one is full in the secondary colour, the other partial in the foreground colour. */
  lemma TrailAlternates(g: GridParams, head: real, colFade: real, c: int, r: int)
    requires colFade >= 0.3
    requires (r + 1) as real < head - 0.5
    ensures TrailFill(g, head, colFade, c, r).Some? && TrailFill(g, head, colFade, c, r + 1).Some?
    ensures TrailFill(g, head, colFade, c, r).value.paint != TrailFill(g, head, colFade, c, r + 1).value.paint
  {
    var x := head - r as real;
    var t := Trunc(x);
    var u := Trunc(x - 1.0);
    assert u == t - 1;
  }

  /** At most two rows qualify as the head, and two only when they are adjacent. */
  lemma HeadsAdjacent(head: real, r1: int, r2: int)
    requires IsHead(head, r1) && IsHead(head, r2) && r1 < r2
    ensures r2 == r1 + 1
  {
  }

  /** A head exactly halfway between two rows makes both of them heads. */
  lemma TwoHeadsAtHalfRow()
    ensures IsHead(2.5, 2) && IsHead(2.5, 3)
  {
  }
}
