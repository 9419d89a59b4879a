/**
 * The nested loops every generator runs: an outer index `i` in `0..n`, an
 * inner index `j` in `0..m`, and for each pair at most one fill command. The
 * wave and pop-in generators sweep rows outside and columns inside; the matrix
 * generator sweeps columns outside and rows inside. A frame is the sequence of
 * fill commands in loop order; a `cell` function yields what one pair draws.
 */
module Sweep {
  import opened Options
  import opened Common

  function Emit(o: Option<Fill>): (fs: seq<Fill>)
    ensures o.None? <==> fs == []
    ensures o.Some? ==> fs == [o.value]
  {
    match o
    case None => []
    case Some(f) => [f]
  }

  /** The fills of inner positions `0..m` of outer position `i`, in loop order. */
  function Line(i: int, m: int, cell: (int, int) -> Option<Fill>): seq<Fill>
    decreases m
  {
    if m <= 0 then [] else Line(i, m - 1, cell) + Emit(cell(i, m - 1))
  }

  /** The fills of outer positions `0..n`, each with inner positions `0..m`, in loop order. */
  function Frame(n: int, m: int, cell: (int, int) -> Option<Fill>): seq<Fill>
    decreases n
  {
    if n <= 0 then [] else Frame(n - 1, m, cell) + Line(n - 1, m, cell)
  }

  /** One more inner position appends that position's fill, if any. */
  lemma LineStep(i: int, m: int, cell: (int, int) -> Option<Fill>)
    requires m >= 0
    ensures Line(i, m + 1, cell) == Line(i, m, cell) + Emit(cell(i, m))
  {
  }

  /** One more outer position appends that position's line. */
  lemma FrameStep(n: int, m: int, cell: (int, int) -> Option<Fill>)
    requires n >= 0
    ensures Frame(n + 1, m, cell) == Frame(n, m, cell) + Line(n, m, cell)
  {
  }

  /** A fill is in a line exactly when some inner position of it draws that fill. */
  lemma {:induction false} LineMembers(i: int, m: int, cell: (int, int) -> Option<Fill>, f: Fill)
    ensures f in Line(i, m, cell) <==> exists j :: 0 <= j < m && cell(i, j) == Some(f)
    decreases m
  {
    if m > 0 {
      LineMembers(i, m - 1, cell, f);
      if cell(i, m - 1) == Some(f) {
        assert f in Emit(cell(i, m - 1));
      }
    }
  }

  /** A fill is in a frame exactly when some position `(i, j)` of the sweep draws that fill. */
  lemma {:induction false} FrameMembers(n: int, m: int, cell: (int, int) -> Option<Fill>, f: Fill)
    ensures f in Frame(n, m, cell) <==> exists i, j :: 0 <= i < n && 0 <= j < m && cell(i, j) == Some(f)
    decreases n
  {
    if n > 0 {
      FrameMembers(n - 1, m, cell, f);
      LineMembers(n - 1, m, cell, f);
      assert Frame(n, m, cell) == Frame(n - 1, m, cell) + Line(n - 1, m, cell);
      if f in Frame(n, m, cell) {
        if f in Frame(n - 1, m, cell) {
          var i, j :| 0 <= i < n - 1 && 0 <= j < m && cell(i, j) == Some(f);
          assert 0 <= i < n;
        } else {
          assert f in Line(n - 1, m, cell);
          var j :| 0 <= j < m && cell(n - 1, j) == Some(f);
          assert 0 <= n - 1 < n;
        }
      }
      if exists i, j :: 0 <= i < n && 0 <= j < m && cell(i, j) == Some(f) {
        var i, j :| 0 <= i < n && 0 <= j < m && cell(i, j) == Some(f);
        if i < n - 1 {
          assert f in Frame(n - 1, m, cell);
        } else {
          assert f in Line(n - 1, m, cell);
        }
      }
    }
  }

  /** A line draws nothing when none of its positions draws. */
  lemma {:induction false} LineSilent(i: int, m: int, cell: (int, int) -> Option<Fill>)
    requires forall j :: 0 <= j < m ==> cell(i, j).None?
    ensures Line(i, m, cell) == []
    decreases m
  {
    if m > 0 {
      LineSilent(i, m - 1, cell);
    }
  }

  /** A frame draws nothing when none of its positions draws. */
  lemma {:induction false} FrameSilent(n: int, m: int, cell: (int, int) -> Option<Fill>)
    requires forall i, j :: 0 <= i < n && 0 <= j < m ==> cell(i, j).None?
    ensures Frame(n, m, cell) == []
    decreases n
  {
    if n > 0 {
      FrameSilent(n - 1, m, cell);
      LineSilent(n - 1, m, cell);
    }
  }
}
