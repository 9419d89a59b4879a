/**
 * The wave-fill ("sideload") generator (src/c/animations/sideload.c). A band
 * sweeps down the grid; every cell of a row the band has reached is reseeded
 * from its coordinates, classified empty, partial or full from the first value
 * drawn and coloured from the second. The wave position `wave_row` is
 * computed from the animation progress in single-precision floating point;
 * here it is an input `waveRow`, like the global fade `fade`.
 */
module Sideload {
  import opened Options
  import opened Common
  import opened Sweep

  /** 15% empty, 35% partial, 50% full, by the first value modulo 100. */
  function Classify(v: bv32): (s: CellState)
    ensures s == Empty <==> (v as int) % 100 < 15
    ensures s == Partial <==> 15 <= (v as int) % 100 < 50
    ensures s == Full <==> 50 <= (v as int) % 100
  {
    var k := (v as int) % 100;
    if k < 15 then Empty else if k < 50 then Partial else Full
  }

  /** A row is touched once it is at most five rows below the wave position `waveRow`. */
  predicate Touched(waveRow: real, r: int)
  {
    r as real <= waveRow + 5.0
  }

  /** What the cell at row `r`, column `c` draws in a frame whose saved seed is `saved`. */
  function CellFill(g: GridParams, waveRow: real, fade: real, saved: bv32, r: int, c: int): Option<Fill>
  {
    if !Touched(waveRow, r) then None
    else
      var n := Noise(CellSeed(r, c, saved));
      var s := Classify(n.0);
      if s == Empty || fade < 0.3 then None
      else Some(Fill(CellRect(g, r, c, s), PaintOf(n.1)))
  }

  function Cells(g: GridParams, waveRow: real, fade: real, saved: bv32): (int, int) -> Option<Fill>
  {
    (r, c) => CellFill(g, waveRow, fade, saved, r, c)
  }

  /** `cells` agrees with `CellFill` everywhere: the cell function the drawing loops follow. */
  ghost predicate IsCells(cells: (int, int) -> Option<Fill>, g: GridParams, waveRow: real, fade: real, saved: bv32)
  {
    forall r, c {:trigger CellFill(g, waveRow, fade, saved, r, c)} :: cells(r, c) == CellFill(g, waveRow, fade, saved, r, c)
  }

  /** The fills of one frame, rows outside and columns inside. */
  function Fills(g: GridParams, waveRow: real, fade: real, saved: bv32): seq<Fill>
  {
    Frame(g.rows, g.cols, Cells(g, waveRow, fade, saved))
  }

  /** `sideload_init_seed`: set the file-local state. */
  method InitSeed(rng: Lcg, seed: bv32)
    modifies rng
    ensures rng.seed == seed
  {
    rng.Seed(seed);
  }

  /**
   * `draw_sideload_animation`: the frame's fills, computed by reseeding the
   * file-local generator for every touched cell, and the generator's state
   * put back as it was.
   */
  method Draw(rng: Lcg, g: GridParams, waveRow: real, fade: real) returns (fills: seq<Fill>)
    modifies rng
    ensures rng.seed == old(rng.seed)
    ensures fills == Fills(g, waveRow, fade, old(rng.seed))
  {
    var saved := rng.seed;
    fills := DrawRows(rng, g, waveRow, fade, saved, Cells(g, waveRow, fade, saved));
    rng.seed := saved;
  }

  /** The outer loop of the sweep: rows top to bottom. */
  method DrawRows(rng: Lcg, g: GridParams, waveRow: real, fade: real, saved: bv32, ghost cells: (int, int) -> Option<Fill>) returns (fills: seq<Fill>)
    requires IsCells(cells, g, waveRow, fade, saved)
    modifies rng
    ensures fills == Frame(g.rows, g.cols, cells)
  {
    fills := [];
    var r := 0;
    while r < g.rows
      invariant 0 <= r && (r == 0 || r <= g.rows)
      invariant fills == Frame(r, g.cols, cells)
    {
      var line := DrawRow(rng, g, waveRow, fade, saved, cells, r);
      FrameStep(r, g.cols, cells);
      fills := fills + line;
      r := r + 1;
    }
  }

  method DrawRow(rng: Lcg, g: GridParams, waveRow: real, fade: real, saved: bv32, ghost cells: (int, int) -> Option<Fill>, r: int) returns (line: seq<Fill>)
    requires IsCells(cells, g, waveRow, fade, saved)
    modifies rng
    ensures line == Line(r, g.cols, cells)
  {
    line := [];
    var c := 0;
    while c < g.cols
      invariant 0 <= c && (c == 0 || c <= g.cols)
      invariant line == Line(r, c, cells)
    {
      var cell := DrawCell(rng, g, waveRow, fade, saved, cells, r, c);
      LineStep(r, c, cells);
      line := line + Emit(cell);
      c := c + 1;
    }
  }

  method DrawCell(rng: Lcg, g: GridParams, waveRow: real, fade: real, saved: bv32, ghost cells: (int, int) -> Option<Fill>, r: int, c: int) returns (cell: Option<Fill>)
    requires IsCells(cells, g, waveRow, fade, saved)
    modifies rng
    ensures cell == cells(r, c)
  {
    cell := None;
    var touched := r as real <= waveRow + 5.0;
    if touched {
      rng.seed := CellSeed(r, c, saved);
      var v1 := rng.Next();
      var v2 := rng.Next();
      var state := Classify(v1);
      if state != Empty && !(fade < 0.3) {
        var paint := if (v2 as int) % 100 < 45 then Secondary else Foreground;
        cell := Some(Fill(CellRect(g, r, c, state), paint));
      }
    }
    assert cell == CellFill(g, waveRow, fade, saved, r, c);
  }

  // ---------------------------------------------------------------------------
  // Properties of a frame
  // ---------------------------------------------------------------------------

  /** A cell's fill depends only on its coordinates and the saved seed: the values it draws are those of its own reseed. */
  lemma CellNoiseIsOwnStream(g: GridParams, waveRow: real, fade: real, saved: bv32, r: int, c: int)
    requires Touched(waveRow, r)
    ensures CellFill(g, waveRow, fade, saved, r, c).Some? <==>
              (Common.Draws(CellSeed(r, c, saved), 2)[0] as int) % 100 >= 15 && fade >= 0.3
  {
  }

  /** When the fade is below 0.3 a frame draws nothing. */
  lemma {:induction false} FadeCutoff(g: GridParams, waveRow: real, fade: real, saved: bv32)
    requires fade < 0.3
    ensures Fills(g, waveRow, fade, saved) == []
  {
    FrameSilent(g.rows, g.cols, Cells(g, waveRow, fade, saved));
  }

  /**
   * The fills of a frame are exactly the fills of its drawing cells: a fill is
   * drawn iff some cell inside the grid is touched, not classified empty, the
   * fade is at least 0.3, and the fill is that cell's rectangle and colour.
   */
  lemma {:induction false} FrameContents(g: GridParams, waveRow: real, fade: real, saved: bv32, f: Fill)
    ensures f in Fills(g, waveRow, fade, saved) <==>
      exists r, c :: 0 <= r < g.rows && 0 <= c < g.cols && CellFill(g, waveRow, fade, saved, r, c) == Some(f)
  {
    var cells := Cells(g, waveRow, fade, saved);
    FrameMembers(g.rows, g.cols, cells, f);
    assert forall r, c :: cells(r, c) == CellFill(g, waveRow, fade, saved, r, c);
  }

  /** What a drawing cell fills: the full inset for a full cell, the partial inset otherwise, coloured by the second value. */
  lemma CellGeometry(g: GridParams, waveRow: real, fade: real, saved: bv32, r: int, c: int)
    requires CellFill(g, waveRow, fade, saved, r, c).Some?
    ensures var n := Noise(CellSeed(r, c, saved));
            var f := CellFill(g, waveRow, fade, saved, r, c).value;
            && f.paint == PaintOf(n.1)
            && ((n.0 as int) % 100 >= 50 ==> f.rect == Rect(g.offsetX + c * g.cellSize + g.fullOffset, g.offsetY + r * g.cellSize + g.fullOffset, g.fullSize, g.fullSize))
            && ((n.0 as int) % 100 < 50 ==> f.rect == Rect(g.offsetX + c * g.cellSize + g.partialOffset, g.offsetY + r * g.cellSize + g.partialOffset, g.partialSize, g.partialSize))
  {
  }

  /** Rows the wave has not reached contribute nothing to the frame. */
  lemma {:induction false} UntouchedRowsBlank(g: GridParams, waveRow: real, fade: real, saved: bv32, f: Fill)
    requires f in Fills(g, waveRow, fade, saved)
    ensures exists r, c :: 0 <= r < g.rows && 0 <= c < g.cols && Touched(waveRow, r) && CellFill(g, waveRow, fade, saved, r, c) == Some(f)
  {
    FrameContents(g, waveRow, fade, saved, f);
  }
}
