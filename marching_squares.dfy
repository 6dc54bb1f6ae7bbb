/**
 * The contour tracer of the implicit plotter (`marchingSquares`, `interp`,
 * `lerpPoint`). A grid of sampled values, row j and column i, is cut into
 * cells whose four corners are numbered 0 top-left, 1 top-right,
 * 2 bottom-right, 3 bottom-left. A corner is inside when its value is at least
 * `iso` (a NaN corner never is); the four inside-bits form the cell's mask, and
 * a 16-entry table picks the two cell edges a segment joins.
 */
module Contour {
  import opened Wrappers
  import opened Numeric

  /** `v >= iso` on a double: false when `v` is NaN. */
  predicate AtLeast(v: Double, iso: real) {
    v.Num? && v.r >= iso
  }

  /** Bit k of a mask. */
  predicate Bit(m: int, k: int)
    requires 0 <= k < 4
  {
    if k == 0 then m % 2 == 1
    else if k == 1 then (m / 2) % 2 == 1
    else if k == 2 then (m / 4) % 2 == 1
    else (m / 8) % 2 == 1
  }

  /** The cell mask: `mask |= 1 << k` for each corner k at or above `iso`. */
  function CellMask(v: seq<Double>, iso: real): (m: int)
    requires |v| == 4
    ensures 0 <= m < 16
  {
    (if AtLeast(v[0], iso) then 1 else 0) + (if AtLeast(v[1], iso) then 2 else 0)
    + (if AtLeast(v[2], iso) then 4 else 0) + (if AtLeast(v[3], iso) then 8 else 0)
  }

  /** Bit k of the mask is set exactly when corner k is at or above `iso`; a NaN corner's bit is clear. */
  lemma MaskBits(v: seq<Double>, iso: real)
    requires |v| == 4
    ensures forall k :: 0 <= k < 4 ==> (Bit(CellMask(v, iso), k) <==> AtLeast(v[k], iso))
    ensures forall k :: 0 <= k < 4 && v[k] == NaN ==> !Bit(CellMask(v, iso), k)
  {
  }

  /** A cell edge, given by the two corners it joins, in the order `interp` receives them. */
  datatype Edge = Edge(a: int, b: int)

  const TopEdge := Edge(0, 1)
  const RightEdge := Edge(1, 2)
  const BottomEdge := Edge(2, 3)
  const LeftEdge := Edge(0, 3)

  /** The case switch: the two edges a segment joins, or None for the masks the switch skips. */
  function CaseEdges(m: int): Option<(Edge, Edge)> {
    if m == 1 || m == 14 then Some((TopEdge, LeftEdge))
    else if m == 2 || m == 13 then Some((TopEdge, RightEdge))
    else if m == 3 || m == 12 then Some((RightEdge, LeftEdge))
    else if m == 4 || m == 11 then Some((BottomEdge, RightEdge))
    else if m == 5 || m == 10 then Some((TopEdge, BottomEdge))
    else if m == 6 || m == 9 then Some((LeftEdge, BottomEdge))
    else if m == 7 || m == 8 then Some((LeftEdge, RightEdge))
    else None
  }

  /** `lerpPoint`: the point `A + t(B - A)`; a NaN parameter gives a NaN point. */
  function Lerp(x1: real, y1: real, x2: real, y2: real, t: Double): Pt {
    if t.Num? then Pt(x1 + (x2 - x1) * t.r, y1 + (y2 - y1) * t.r) else NaNPt
  }

  /**
   * The parameter `interp` computes: `(iso - va) / (vb - va)` when `vb != va`,
   * else 0. On doubles `vb != va` holds whenever either is NaN, and the quotient
   * is then NaN.
   */
  function InterpT(va: Double, vb: Double, iso: real): Double {
    if va.Num? && vb.Num? then
      if vb.r != va.r then Num((iso - va.r) / (vb.r - va.r)) else Num(0.0)
    else NaN
  }

  /** The position of a cell and the spacing of the grid. */
  datatype Frame = Frame(x0: real, y0: real, dx: real, dy: real)

  /** The world position of corner k of cell (j, i): `xL`/`xR` and `yT`/`yB`. */
  function CornerX(f: Frame, i: nat, k: int): real {
    if k == 0 || k == 3 then f.x0 + Times(i, f.dx) else f.x0 + Times(i + 1, f.dx)
  }

  function CornerY(f: Frame, j: nat, k: int): real {
    if k == 0 || k == 1 then f.y0 + Times(j, f.dy) else f.y0 + Times(j + 1, f.dy)
  }

  /** The corners are at `x0 + i*dx`, `x0 + (i+1)*dx`, `y0 + j*dy` and `y0 + (j+1)*dy`. */
  lemma CornerPositions(f: Frame, j: nat, i: nat)
    ensures CornerX(f, i, 0) == CornerX(f, i, 3) == f.x0 + (i as real) * f.dx
    ensures CornerX(f, i, 1) == CornerX(f, i, 2) == f.x0 + ((i + 1) as real) * f.dx
    ensures CornerY(f, j, 0) == CornerY(f, j, 1) == f.y0 + (j as real) * f.dy
    ensures CornerY(f, j, 2) == CornerY(f, j, 3) == f.y0 + ((j + 1) as real) * f.dy
  {
    TimesIsProduct(i, f.dx);
    TimesIsProduct(i + 1, f.dx);
    TimesIsProduct(j, f.dy);
    TimesIsProduct(j + 1, f.dy);
  }

  /**
   * `interp(a, b, xa, ya, xb, yb)` on edge `e`; every call in the switch passes
   * the positions of the edge's own two corners.
   */
  function Interp(v: seq<Double>, e: Edge, f: Frame, j: nat, i: nat, iso: real): Pt
    requires |v| == 4 && 0 <= e.a < 4 && 0 <= e.b < 4
  {
    Lerp(CornerX(f, i, e.a), CornerY(f, j, e.a), CornerX(f, i, e.b), CornerY(f, j, e.b), InterpT(v[e.a], v[e.b], iso))
  }

  /** A grid with at least one row, all rows of the same length. */
  predicate Rectangular(grid: seq<seq<Double>>) {
    |grid| > 0 && forall j :: 0 <= j < |grid| ==> |grid[j]| == |grid[0]|
  }

  /** The four corner values of cell (j, i), in corner order. */
  function Corners(grid: seq<seq<Double>>, j: int, i: int): (v: seq<Double>)
    requires Rectangular(grid) && 0 <= j < |grid| - 1 && 0 <= i < |grid[0]| - 1
    ensures |v| == 4
  {
    [grid[j][i], grid[j][i + 1], grid[j + 1][i + 1], grid[j + 1][i]]
  }

  /**
   * The segment joining the crossings on edges `e1` and `e2`, in that order.
   * Written as a comprehension, so that its points are computed only where
   * they are looked at.
   */
  function SegmentOf(v: seq<Double>, e1: Edge, e2: Edge, f: Frame, j: nat, i: nat, iso: real): (s: seq<Pt>)
    requires |v| == 4 && 0 <= e1.a < 4 && 0 <= e1.b < 4 && 0 <= e2.a < 4 && 0 <= e2.b < 4
    ensures |s| == 2
  {
    seq(2, k requires 0 <= k < 2 => Interp(v, if k == 0 then e1 else e2, f, j, i, iso))
  }

  /** The segment cell (j, i) contributes, if any. */
  function Cell(grid: seq<seq<Double>>, f: Frame, iso: real, j: int, i: int): seq<seq<Pt>>
    requires Rectangular(grid) && 0 <= j < |grid| - 1 && 0 <= i < |grid[0]| - 1
  {
    var v := Corners(grid, j, i);
    match CaseEdges(CellMask(v, iso))
    case None => []
    case Some((e1, e2)) => [SegmentOf(v, e1, e2, f, j, i, iso)]
  }

  /** The segments of cells i, i+1, ... of row j. */
  function CellsFrom(grid: seq<seq<Double>>, f: Frame, iso: real, j: int, i: nat): seq<seq<Pt>>
    requires Rectangular(grid) && 0 <= j < |grid| - 1
    decreases |grid[0]| - i
  {
    if i >= |grid[0]| - 1 then [] else Cell(grid, f, iso, j, i) + CellsFrom(grid, f, iso, j, i + 1)
  }

  /** The segments of rows j, j+1, ..., each row left to right. */
  function RowsFrom(grid: seq<seq<Double>>, f: Frame, iso: real, j: nat): seq<seq<Pt>>
    requires Rectangular(grid)
    decreases |grid| - j
  {
    if j >= |grid| - 1 then [] else CellsFrom(grid, f, iso, j, 0) + RowsFrom(grid, f, iso, j + 1)
  }

  function Segments(grid: seq<seq<Double>>, f: Frame, iso: real): seq<seq<Pt>>
    requires Rectangular(grid)
  {
    RowsFrom(grid, f, iso, 0)
  }

  /** `marchingSquares(grid, x0, y0, dx, dy, iso)`: cells visited row by row, left to right. */
  method MarchingSquares(grid: seq<seq<Double>>, x0: real, y0: real, dx: real, dy: real, iso: real) returns (segments: seq<seq<Pt>>)
    requires Rectangular(grid)
    ensures segments == Segments(grid, Frame(x0, y0, dx, dy), iso)
  {
    ghost var f := Frame(x0, y0, dx, dy);
    var ny := |grid|;
    segments := [];
    var j := 0;
    while j < ny - 1
      invariant 0 <= j <= ny - 1
      invariant segments + RowsFrom(grid, f, iso, j) == Segments(grid, f, iso)
    {
      var row := VisitRow(grid, x0, y0, dx, dy, iso, j);
      segments := segments + row;
      j := j + 1;
    }
  }

  /** The inner loop over the cells of row j. */
  method VisitRow(grid: seq<seq<Double>>, x0: real, y0: real, dx: real, dy: real, iso: real, j: int)
    returns (row: seq<seq<Pt>>)
    requires Rectangular(grid) && 0 <= j < |grid| - 1
    ensures row == CellsFrom(grid, Frame(x0, y0, dx, dy), iso, j, 0)
  {
    ghost var f := Frame(x0, y0, dx, dy);
    var nx := |grid[0]|;
    row := [];
    var i := 0;
    while i < nx - 1
      invariant 0 <= i && (nx >= 1 ==> i <= nx - 1)
      invariant row + CellsFrom(grid, f, iso, j, i) == CellsFrom(grid, f, iso, j, 0)
    {
      var cell := VisitCell(grid, x0, y0, dx, dy, iso, j, i);
      assert CellsFrom(grid, f, iso, j, i) == cell + CellsFrom(grid, f, iso, j, i + 1);
      row := row + cell;
      i := i + 1;
    }
  }

  /** One pass of the inner loop: the mask, the trivial-case skip, the switch and the push. */
  method VisitCell(grid: seq<seq<Double>>, x0: real, y0: real, dx: real, dy: real, iso: real, j: int, i: int)
    returns (cell: seq<seq<Pt>>)
    requires Rectangular(grid) && 0 <= j < |grid| - 1 && 0 <= i < |grid[0]| - 1
    ensures cell == Cell(grid, Frame(x0, y0, dx, dy), iso, j, i)
  {
    var v := [grid[j][i], grid[j][i + 1], grid[j + 1][i + 1], grid[j + 1][i]];
    var mask := 0;
    if AtLeast(v[0], iso) { mask := mask + 1; }
    if AtLeast(v[1], iso) { mask := mask + 2; }
    if AtLeast(v[2], iso) { mask := mask + 4; }
    if AtLeast(v[3], iso) { mask := mask + 8; }
    assert v == Corners(grid, j, i) && mask == CellMask(v, iso);
    cell := [];
    if mask == 0 || mask == 15 {
      return;
    }
    var pts: seq<Pt> := [];
    var edges := CaseEdges(mask);
    if edges.Some? {
      var p1 := Interp(v, edges.value.0, Frame(x0, y0, dx, dy), j, i, iso);
      var p2 := Interp(v, edges.value.1, Frame(x0, y0, dx, dy), j, i, iso);
      pts := [p1, p2];
      assert pts == SegmentOf(v, edges.value.0, edges.value.1, Frame(x0, y0, dx, dy), j, i, iso);
    }
    if pts != [] {
      cell := [pts];
    }
  }

  // ---------------------------------------------------------------------------
  // The case table

  /** Masks 0 and 15 emit nothing; every other mask picks two edges. */
  lemma TrivialMasksOnly(m: int)
    requires 0 <= m < 16
    ensures CaseEdges(m).None? <==> m == 0 || m == 15
  {
  }

  /** A mask and its complement select the same edge pair. */
  lemma ComplementSameEdges(m: int)
    requires 0 < m < 15
    ensures CaseEdges(m) == CaseEdges(15 - m)
  {
  }

  /** An edge straddles the contour when exactly one of its corners is inside. */
  predicate Straddles(m: int, e: Edge)
    requires 0 <= e.a < 4 && 0 <= e.b < 4
  {
    Bit(m, e.a) != Bit(m, e.b)
  }

  /** For masks 1-5 and 10-14 both chosen edges straddle the contour. */
  lemma StraddlingCases(m: int)
    requires 1 <= m <= 5 || 10 <= m <= 14
    ensures CaseEdges(m).Some?
    ensures Straddles(m, CaseEdges(m).value.0) && Straddles(m, CaseEdges(m).value.1)
  {
  }

  /**
   * For masks 6-9 the table, as written, picks one edge whose corners are both
   * inside or both outside: mask 6 (corners 1 and 2 inside) joins the left and
   * bottom edges although the left edge has no crossing.
   */
  lemma NonStraddlingCases(m: int)
    requires 6 <= m <= 9
    ensures CaseEdges(m).Some?
    ensures Straddles(m, CaseEdges(m).value.0) != Straddles(m, CaseEdges(m).value.1)
  {
  }

  // ---------------------------------------------------------------------------
  // Interpolation

  /** `lerpPoint` at t = 0 and t = 1 gives the two endpoints. */
  lemma LerpEndpoints(x1: real, y1: real, x2: real, y2: real)
    ensures Lerp(x1, y1, x2, y2, Num(0.0)) == Pt(x1, y1)
    ensures Lerp(x1, y1, x2, y2, Num(1.0)) == Pt(x2, y2)
  {
  }

  /** With one finite value on each side of `iso`, the interpolation parameter lies in [0, 1]. */
  lemma InterpBetween(va: Double, vb: Double, iso: real)
    requires va.Num? && vb.Num? && AtLeast(va, iso) != AtLeast(vb, iso)
    ensures InterpT(va, vb, iso).Num?
    ensures 0.0 <= InterpT(va, vb, iso).r <= 1.0
  {
    var t := (iso - va.r) / (vb.r - va.r);
    if va.r >= iso {
      assert vb.r < iso;
      assert t * (vb.r - va.r) == iso - va.r;
    } else {
      assert vb.r >= iso;
      assert t * (vb.r - va.r) == iso - va.r;
    }
  }

  /** A NaN corner value puts its edge's point at NaN. */
  lemma NaNCornerGivesNaNPoint(x1: real, y1: real, x2: real, y2: real, va: Double, vb: Double, iso: real)
    requires va == NaN || vb == NaN
    ensures Lerp(x1, y1, x2, y2, InterpT(va, vb, iso)) == NaNPt
  {
  }

  /**
   * In a cell with finite corners and a mask in 1-5 or 10-14, both points of
   * the segment lie on their edges, between the edge's two corners.
   */
  lemma SegmentPointsOnEdges(grid: seq<seq<Double>>, f: Frame, iso: real, j: nat, i: nat)
    requires Rectangular(grid) && j < |grid| - 1 && i < |grid[0]| - 1
    requires forall k :: 0 <= k < 4 ==> Corners(grid, j, i)[k].Num?
    requires var m := CellMask(Corners(grid, j, i), iso); 1 <= m <= 5 || 10 <= m <= 14
    ensures |Cell(grid, f, iso, j, i)| == 1
    ensures var v := Corners(grid, j, i);
            var (e1, e2) := CaseEdges(CellMask(v, iso)).value;
            Cell(grid, f, iso, j, i)[0] == [Interp(v, e1, f, j, i, iso), Interp(v, e2, f, j, i, iso)] &&
            InterpT(v[e1.a], v[e1.b], iso).Num? && 0.0 <= InterpT(v[e1.a], v[e1.b], iso).r <= 1.0 &&
            InterpT(v[e2.a], v[e2.b], iso).Num? && 0.0 <= InterpT(v[e2.a], v[e2.b], iso).r <= 1.0
  {
    var v := Corners(grid, j, i);
    var m := CellMask(v, iso);
    MaskBits(v, iso);
    StraddlingCases(m);
    var (e1, e2) := CaseEdges(m).value;
    InterpBetween(v[e1.a], v[e1.b], iso);
    InterpBetween(v[e2.a], v[e2.b], iso);
    var seg := SegmentOf(v, e1, e2, f, j, i, iso);
    assert seg[0] == Interp(v, e1, f, j, i, iso) && seg[1] == Interp(v, e2, f, j, i, iso);
  }

  // ---------------------------------------------------------------------------
  // Output size

  /** A cell emits nothing for masks 0 and 15 and one two-point segment otherwise. */
  lemma CellShape(grid: seq<seq<Double>>, f: Frame, iso: real, j: int, i: int)
    requires Rectangular(grid) && 0 <= j < |grid| - 1 && 0 <= i < |grid[0]| - 1
    ensures var m := CellMask(Corners(grid, j, i), iso);
            (Cell(grid, f, iso, j, i) == [] <==> m == 0 || m == 15)
    ensures |Cell(grid, f, iso, j, i)| <= 1
    ensures forall s :: s in Cell(grid, f, iso, j, i) ==> |s| == 2
  {
    TrivialMasksOnly(CellMask(Corners(grid, j, i), iso));
  }

  lemma {:induction false} CellsFromSize(grid: seq<seq<Double>>, f: Frame, iso: real, j: int, i: nat)
    requires Rectangular(grid) && 0 <= j < |grid| - 1 && i <= |grid[0]| - 1
    ensures |CellsFrom(grid, f, iso, j, i)| <= |grid[0]| - 1 - i
    decreases |grid[0]| - i
  {
    if i < |grid[0]| - 1 {
      CellShape(grid, f, iso, j, i);
      CellsFromSize(grid, f, iso, j, i + 1);
    }
  }

  lemma {:induction false} CellsFromPairs(grid: seq<seq<Double>>, f: Frame, iso: real, j: int, i: nat)
    requires Rectangular(grid) && 0 <= j < |grid| - 1
    ensures forall s :: s in CellsFrom(grid, f, iso, j, i) ==> |s| == 2
    decreases |grid[0]| - i
  {
    if i < |grid[0]| - 1 {
      CellShape(grid, f, iso, j, i);
      CellsFromPairs(grid, f, iso, j, i + 1);
    }
  }

  lemma {:induction false} RowsFromSize(grid: seq<seq<Double>>, f: Frame, iso: real, j: nat)
    requires Rectangular(grid) && |grid[0]| >= 1 && j <= |grid| - 1
    ensures |RowsFrom(grid, f, iso, j)| <= (|grid[0]| - 1) * (|grid| - 1 - j)
    decreases |grid| - j
  {
    if j < |grid| - 1 {
      var nx1, rest := |grid[0]| - 1, |grid| - 1 - (j + 1);
      CellsFromSize(grid, f, iso, j, 0);
      RowsFromSize(grid, f, iso, j + 1);
      assert |RowsFrom(grid, f, iso, j)| <= nx1 + nx1 * rest;
      MulSucc(nx1, rest);
    }
  }

  lemma MulSucc(a: int, b: int)
    ensures a + a * b == a * (b + 1)
  {
  }

  lemma {:induction false} RowsFromPairs(grid: seq<seq<Double>>, f: Frame, iso: real, j: nat)
    requires Rectangular(grid)
    ensures forall s :: s in RowsFrom(grid, f, iso, j) ==> |s| == 2
    decreases |grid| - j
  {
    if j < |grid| - 1 {
      CellsFromPairs(grid, f, iso, j, 0);
      RowsFromPairs(grid, f, iso, j + 1);
    }
  }

  /** At most one segment per cell, (nx-1)(ny-1) in all, and every segment has two points. */
  lemma SegmentCount(grid: seq<seq<Double>>, f: Frame, iso: real)
    requires Rectangular(grid) && |grid[0]| >= 1
    ensures |Segments(grid, f, iso)| <= (|grid[0]| - 1) * (|grid| - 1)
    ensures forall s :: s in Segments(grid, f, iso) ==> |s| == 2
  {
    RowsFromSize(grid, f, iso, 0);
    RowsFromPairs(grid, f, iso, 0);
  }

  /** A single row or a single column has no cells. */
  lemma NoCellsNoSegments(grid: seq<seq<Double>>, f: Frame, iso: real)
    requires Rectangular(grid) && (|grid| == 1 || |grid[0]| == 1)
    ensures Segments(grid, f, iso) == []
  {
    if |grid| > 1 {
      RowsFromSize(grid, f, iso, 0);
    }
  }
}
