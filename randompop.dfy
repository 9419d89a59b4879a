/**
 * The random pop-in generator (src/c/animations/random.c). Every cell is
 * reseeded from its coordinates; the first value drawn gives the cell a start
 * time in [0, 0.5), after which the cell shows full for a third of its
 * half-second life, then partial for a third, then vanishes. The second value
 * picks the colour. The cell's progress is computed from the animation
 * progress and the start time in single-precision floating point; here it is
 * an input `cellProgress`, a function of the start numerator `rand_val % 500`,
 * and the global fade `fade` is an input too.
 */
module RandomPop {
  import opened Options
  import opened Common
  import opened Sweep

  /** The numerator of `cell_start`: `rand_val % 500`, so the start time is `StartKey(v) / 1000`. */
  function StartKey(v: bv32): (k: int)
    ensures 0 <= k < 500
  {
    (v as int) % 500
  }

  /** The state shown at cell progress `cp`: full below 0.33, partial below 0.66, gone (empty) after. */
  function Phase(cp: real): (s: CellState)
    ensures s == Full <==> cp < 0.33
    ensures s == Partial <==> 0.33 <= cp < 0.66
    ensures s == Empty <==> 0.66 <= cp
  {
    if cp < 0.33 then Full else if cp < 0.66 then Partial else Empty
  }

  /** What the cell at row `r`, column `c` draws in a frame whose saved seed is `saved`. */
  function CellFill(g: GridParams, cellProgress: int -> real, fade: real, saved: bv32, r: int, c: int): Option<Fill>
  {
    var n := Noise(CellSeed(r, c, saved));
    var cp := cellProgress(StartKey(n.0));
    if cp < 0.0 || cp > 1.0 then None
    else if fade < 0.3 then None
    else
      var s := Phase(cp);
      if s == Empty then None
      else Some(Fill(CellRect(g, r, c, s), PaintOf(n.1)))
  }

  function Cells(g: GridParams, cellProgress: int -> real, fade: real, saved: bv32): (int, int) -> Option<Fill>
  {
    (r, c) => CellFill(g, cellProgress, fade, saved, r, c)
  }

  /** `cells` agrees with `CellFill` everywhere: the cell function the drawing loops follow. */
  ghost predicate IsCells(cells: (int, int) -> Option<Fill>, g: GridParams, cellProgress: int -> real, fade: real, saved: bv32)
  {
    forall r, c {:trigger CellFill(g, cellProgress, fade, saved, r, c)} :: cells(r, c) == CellFill(g, cellProgress, fade, saved, r, c)
  }

  /** The fills of one frame, rows outside and columns inside. */
  function Fills(g: GridParams, cellProgress: int -> real, fade: real, saved: bv32): seq<Fill>
  {
    Frame(g.rows, g.cols, Cells(g, cellProgress, fade, saved))
  }

  /** `random_init_seed`: set the file-local state. */
  method InitSeed(rng: Lcg, seed: bv32)
    modifies rng
    ensures rng.seed == seed
  {
    rng.Seed(seed);
  }

  /**
   * `draw_random_animation`: the frame's fills, computed by reseeding the
   * file-local generator for every cell, and the generator's state put back
   * as it was.
   */
  method Draw(rng: Lcg, g: GridParams, cellProgress: int -> real, fade: real) returns (fills: seq<Fill>)
    modifies rng
    ensures rng.seed == old(rng.seed)
    ensures fills == Fills(g, cellProgress, fade, old(rng.seed))
  {
    var saved := rng.seed;
    fills := DrawRows(rng, g, cellProgress, fade, saved, Cells(g, cellProgress, fade, saved));
    rng.seed := saved;
  }

  /** The outer loop of the sweep: rows top to bottom. */
  method DrawRows(rng: Lcg, g: GridParams, cellProgress: int -> real, fade: real, saved: bv32, ghost cells: (int, int) -> Option<Fill>) returns (fills: seq<Fill>)
    requires IsCells(cells, g, cellProgress, fade, saved)
    modifies rng
    ensures fills == Frame(g.rows, g.cols, cells)
  {
    fills := [];
    var r := 0;
    while r < g.rows
      invariant 0 <= r && (r == 0 || r <= g.rows)
      invariant fills == Frame(r, g.cols, cells)
    {
      var line := DrawRow(rng, g, cellProgress, fade, saved, cells, r);
      FrameStep(r, g.cols, cells);
      fills := fills + line;
      r := r + 1;
    }
    assert r == g.rows || (g.rows <= 0 && r == 0);
  }

  /** The inner loop of the sweep: the fills of row `r`, columns left to right. */
  method DrawRow(rng: Lcg, g: GridParams, cellProgress: int -> real, fade: real, saved: bv32, ghost cells: (int, int) -> Option<Fill>, r: int) returns (line: seq<Fill>)
    requires IsCells(cells, g, cellProgress, fade, saved)
    modifies rng
    ensures line == Line(r, g.cols, cells)
  {
    line := [];
    var c := 0;
    while c < g.cols
      invariant 0 <= c && (c == 0 || c <= g.cols)
      invariant line == Line(r, c, cells)
    {
      var cell := DrawCell(rng, g, cellProgress, fade, saved, cells, r, c);
      LineStep(r, c, cells);
      line := line + Emit(cell);
      c := c + 1;
    }
    assert c == g.cols || (g.cols <= 0 && c == 0);
  }

  /** The body of the sweep for one cell: reseed from the coordinates, draw twice, place the cell in its life. */
  method DrawCell(rng: Lcg, g: GridParams, cellProgress: int -> real, fade: real, saved: bv32, ghost cells: (int, int) -> Option<Fill>, r: int, c: int) returns (cell: Option<Fill>)
    requires IsCells(cells, g, cellProgress, fade, saved)
    modifies rng
    ensures cell == cells(r, c)
  {
    cell := None;
    rng.seed := CellSeed(r, c, saved);
    var v1 := rng.Next();
    var v2 := rng.Next();
    var cp := cellProgress((v1 as int) % 500);
    if !(cp < 0.0 || cp > 1.0) && !(fade < 0.3) {
      var state := Empty;
      if cp < 0.33 {
        state := Full;
      } else if cp < 0.66 {
        state := Partial;
      }
      if state != Empty {
        var paint := if (v2 as int) % 100 < 45 then Secondary else Foreground;
        cell := Some(Fill(CellRect(g, r, c, state), paint));
      }
    }
    assert cell == CellFill(g, cellProgress, fade, saved, r, c);
  }

  // ---------------------------------------------------------------------------
  // Properties of a frame
  // ---------------------------------------------------------------------------

  /** When the fade is below 0.3 a frame draws nothing. */
  lemma {:induction false} FadeCutoff(g: GridParams, cellProgress: int -> real, fade: real, saved: bv32)
    requires fade < 0.3
    ensures Fills(g, cellProgress, fade, saved) == []
  {
    FrameSilent(g.rows, g.cols, Cells(g, cellProgress, fade, saved));
  }

  /** The fills of a frame are exactly the fills of the cells inside the grid that are in their visible life. */
  lemma {:induction false} FrameContents(g: GridParams, cellProgress: int -> real, fade: real, saved: bv32, f: Fill)
    ensures f in Fills(g, cellProgress, fade, saved) <==>
      exists r, c :: 0 <= r < g.rows && 0 <= c < g.cols && CellFill(g, cellProgress, fade, saved, r, c) == Some(f)
  {
    var cells := Cells(g, cellProgress, fade, saved);
    FrameMembers(g.rows, g.cols, cells, f);
    assert forall r, c :: cells(r, c) == CellFill(g, cellProgress, fade, saved, r, c);
  }

  /**
   * The life of one cell, by its own progress `cp`: nothing outside
   * [0, 0.66), full below 0.33, partial from 0.33; the colour comes from the
   * second value drawn.
   */
  lemma CellLife(g: GridParams, cellProgress: int -> real, fade: real, saved: bv32, r: int, c: int)
    requires fade >= 0.3
    ensures var n := Noise(CellSeed(r, c, saved));
            var cp := cellProgress(StartKey(n.0));
            var o := CellFill(g, cellProgress, fade, saved, r, c);
            && (o.Some? <==> 0.0 <= cp < 0.66)
            && (0.0 <= cp < 0.33 ==> o == Some(Fill(CellRect(g, r, c, Full), PaintOf(n.1))))
            && (0.33 <= cp < 0.66 ==> o == Some(Fill(CellRect(g, r, c, Partial), PaintOf(n.1))))
  {
  }

  /** A cell goes full, then partial, then away: once partial it never shows full again at a later cell progress. */
  lemma NeverFullAfterPartial(cp1: real, cp2: real)
    requires cp1 <= cp2 && Phase(cp1) == Partial
    ensures Phase(cp2) != Full
  {
  }

  /** Once every possible start has a cell progress of 0.66 or more, the frame is blank. */
  lemma {:induction false} AllGone(g: GridParams, cellProgress: int -> real, fade: real, saved: bv32)
    requires forall k :: 0 <= k < 500 ==> cellProgress(k) >= 0.66
    ensures Fills(g, cellProgress, fade, saved) == []
  {
    var cells := Cells(g, cellProgress, fade, saved);
    forall r, c | 0 <= r < g.rows && 0 <= c < g.cols
      ensures cells(r, c).None?
    {
      var n := Noise(CellSeed(r, c, saved));
      assert cellProgress(StartKey(n.0)) >= 0.66;
      assert CellFill(g, cellProgress, fade, saved, r, c).None?;
    }
    FrameSilent(g.rows, g.cols, cells);
  }
}
