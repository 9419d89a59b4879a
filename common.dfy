/**
 * The shared header of the watchface (src/c/common.h): the 31-bit linear
 * congruential generator, the 8.8 fixed-point constants, the cell-state codes
 * and the grid geometry handed to every animation generator, together with the
 * fill commands the generators emit in place of `graphics_fill_rect` calls.
 */
module Common {
  // ---------------------------------------------------------------------------
  // The linear congruential generator
  // ---------------------------------------------------------------------------

  const LCG_MUL: bv32 := 1103515245
  const LCG_INC: bv32 := 12345
  const LCG_MASK: bv32 := 0x7fff_ffff

  /** One generator step: multiply and add in wrapping 32-bit arithmetic, then keep the low 31 bits. */
  function Step(s: bv32): (r: bv32)
    ensures r <= LCG_MASK
    ensures r & LCG_MASK == r
  {
    (s * LCG_MUL + LCG_INC) & LCG_MASK
  }

  /** The `k` values that `k` successive calls produce from state `s`, in call order. */
  function Draws(s: bv32, k: nat): (vs: seq<bv32>)
    ensures |vs| == k
    decreases k
  {
    if k == 0 then [] else [Step(s)] + Draws(Step(s), k - 1)
  }

  /** The state after `k` calls from state `s`. */
  function StepN(s: bv32, k: nat): bv32
    decreases k
  {
    if k == 0 then s else StepN(Step(s), k - 1)
  }

  /** Every value a generator ever returns lies below 2^31. */
  lemma {:induction false} DrawsBelow31(s: bv32, k: nat)
    ensures forall i :: 0 <= i < k ==> Draws(s, k)[i] as int < 0x8000_0000
    decreases k
  {
    if k > 0 {
      DrawsBelow31(Step(s), k - 1);
      assert Step(s) as int < 0x8000_0000;
    }
  }

  /** The (i+1)-th value drawn is exactly the state after i+1 steps, so the state always equals the last value returned. */
  lemma {:induction false} DrawsAreStates(s: bv32, k: nat, i: nat)
    requires i < k
    ensures Draws(s, k)[i] == StepN(s, i + 1)
    decreases k
  {
    if i > 0 {
      DrawsAreStates(Step(s), k - 1, i - 1);
    }
  }

  /** Drawing `j` more values after `k` continues the same stream. */
  lemma {:induction false} DrawsSplit(s: bv32, k: nat, j: nat)
    ensures Draws(s, k + j) == Draws(s, k) + Draws(StepN(s, k), j)
    decreases k
  {
    if k > 0 {
      DrawsSplit(Step(s), k - 1, j);
    }
  }

  /**
   * A generator's state: one 32-bit word that `Next` advances and `Seed`
   * replaces. `g_random_seed` of the header and the file-local
   * `s_random_seed` of each animation file are each one such object.
   */
  class Lcg {
    var seed: bv32

    constructor (s: bv32)
      ensures seed == s
    {
      seed := s;
    }

    /** `prng_next` / `random_next`: advance the state and return the new state. */
    method Next() returns (v: bv32)
      modifies this
      ensures seed == Step(old(seed))
      ensures v == seed && v <= LCG_MASK
    {
      seed := (seed * LCG_MUL + LCG_INC) & LCG_MASK;
      v := seed;
    }

    /** `prng_seed` and the `*_init_seed` functions: replace the state. */
    method Seed(s: bv32)
      modifies this
      ensures seed == s
    {
      seed := s;
    }
  }

  /** Seeding with `s` and then calling `Next` `k` times yields `Draws(s, k)`, whatever the state was before. */
  method Replay(g: Lcg, s: bv32, k: nat) returns (vs: seq<bv32>)
    modifies g
    ensures vs == Draws(s, k)
    ensures g.seed == StepN(s, k)
  {
    g.Seed(s);
    vs := [];
    var i := 0;
    while i < k
      invariant 0 <= i <= k
      invariant g.seed == StepN(s, i)
      invariant vs + Draws(g.seed, k - i) == Draws(s, k)
    {
      var v := g.Next();
      StepNSucc(s, i);
      vs := vs + [v];
      i := i + 1;
    }
  }

  lemma {:induction false} StepNSucc(s: bv32, k: nat)
    ensures StepN(s, k + 1) == Step(StepN(s, k))
    decreases k
  {
    if k > 0 {
      StepNSucc(Step(s), k - 1);
    }
  }

  // ---------------------------------------------------------------------------
  // Fixed point and cell states
  // ---------------------------------------------------------------------------

  /** 8.8 fixed point: 256 stands for 1.0. */
  const FP_ONE: int := 256
  const FP_HALF: int := 128

  lemma HalfIsHalfOfOne()
    ensures FP_HALF * 2 == FP_ONE && FP_ONE == 256
  {
  }

  /** The three cell states of the header, with codes CELL_EMPTY = 0, CELL_PARTIAL = 1, CELL_FULL = 2. */
  datatype CellState = Empty | Partial | Full

  function Code(s: CellState): (n: int)
    ensures 0 <= n <= 2
    ensures (n == 0 <==> s == Empty) && (n == 2 <==> s == Full)
  {
    match s
    case Empty => 0
    case Partial => 1
    case Full => 2
  }

  // ---------------------------------------------------------------------------
  // Grid geometry and recorded draws
  // ---------------------------------------------------------------------------

  /** `GridParams`: extents, pixel origin and per-cell geometry shared by the generators. */
  datatype GridParams = GridParams(
    cols: int, rows: int,
    offsetX: int, offsetY: int,
    cellSize: int,
    fullSize: int, fullOffset: int,
    partialSize: int, partialOffset: int)

  /** Which of the two palette colours a fill uses (`fg_color` or `secondary_color`). */
  datatype Paint = Foreground | Secondary

  datatype Rect = Rect(x: int, y: int, w: int, h: int)

  /** One `graphics_context_set_fill_color` followed by one `graphics_fill_rect`. */
  datatype Fill = Fill(rect: Rect, paint: Paint)

  /**
   * The sub-rectangle a generator fills for a drawn cell at row `r`, column `c`:
   * the cell's origin plus the full or the partial inset, square of the full or
   * the partial size.
   */
  function CellRect(g: GridParams, r: int, c: int, s: CellState): (rect: Rect)
    requires s != Empty
    ensures s == Full ==> rect == Rect(g.offsetX + c * g.cellSize + g.fullOffset, g.offsetY + r * g.cellSize + g.fullOffset, g.fullSize, g.fullSize)
    ensures s == Partial ==> rect == Rect(g.offsetX + c * g.cellSize + g.partialOffset, g.offsetY + r * g.cellSize + g.partialOffset, g.partialSize, g.partialSize)
  {
    var x := g.offsetX + c * g.cellSize;
    var y := g.offsetY + r * g.cellSize;
    if s == Full then Rect(x + g.fullOffset, y + g.fullOffset, g.fullSize, g.fullSize)
    else Rect(x + g.partialOffset, y + g.partialOffset, g.partialSize, g.partialSize)
  }

  /** The palette choice shared by the wave and pop-in generators: secondary exactly when `v % 100 < 45`. */
  function PaintOf(v: bv32): (p: Paint)
    ensures p == Secondary <==> (v as int) % 100 < 45
  {
    if (v as int) % 100 < 45 then Secondary else Foreground
  }

  // ---------------------------------------------------------------------------
  // Coordinate hashing
  // ---------------------------------------------------------------------------

  const ROW_MIX: bv32 := 2654435761
  const COL_MIX: bv32 := 2246822519

  /** A C `int` converted to `uint32_t`: reduction modulo 2^32. */
  function U32(n: int): bv32
  {
    (n % 0x1_0000_0000) as bv32
  }

  /** The per-cell reseed of the wave and pop-in generators: `(r*2654435761) ^ (c*2246822519) ^ saved`. */
  function CellSeed(r: int, c: int, saved: bv32): bv32
  {
    (U32(r) * ROW_MIX) ^ (U32(c) * COL_MIX) ^ saved
  }

  /** The two values drawn right after reseeding with `s`. */
  function Noise(s: bv32): (n: (bv32, bv32))
    ensures [n.0, n.1] == Draws(s, 2)
  {
    (Step(s), Step(Step(s)))
  }
}
