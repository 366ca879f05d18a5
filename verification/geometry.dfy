/** Where the rectangle of a grid cell lies on the canvas.

    The canvas is cut into `cols` columns of real-valued width
    `width / cols` and `rows` rows of height `height / rows`. Each cell's
    rectangle is inset by a tenth of the cell size on every side, its real
    edges are truncated to whole pixels and then clipped to the canvas.
 */
module Geometry {

  /** Conversion of a real to an integer by truncation toward zero, as
      Python's `int(...)` does for a float. */
  function Trunc(x: real): (n: int)
    ensures x >= 0.0 ==> 0 <= n && n as real <= x < n as real + 1.0
    ensures x < 0.0 ==> n <= 0 && x <= n as real < x + 1.0
  {
    if x < 0.0 then -((-x).Floor) else x.Floor
  }

  /** Truncation keeps the order of non-negative values. */
  lemma TruncMonotone(x: real, y: real)
    requires 0.0 <= x <= y
    ensures Trunc(x) <= Trunc(y)
  {
  }

  /** `numpy.clip(v, lo, hi)` for integers: the point of [lo, hi] nearest to `v`. */
  function Clip(v: int, lo: int, hi: int): (n: int)
    requires lo <= hi
    ensures lo <= n <= hi
    ensures lo <= v <= hi ==> n == v
    ensures v < lo ==> n == lo
    ensures v > hi ==> n == hi
  {
    if v < lo then lo else if v > hi then hi else v
  }

  /** A half-open range of pixel positions [lo, hi). */
  datatype Span = Span(lo: int, hi: int) {
    predicate NonEmpty() { lo < hi }
    predicate Contains(i: int) { lo <= i < hi }
  }

  /** A rectangle of pixels: the columns of `xs` by the rows of `ys`. */
  datatype Rect = Rect(xs: Span, ys: Span) {
    predicate NonEmpty() { xs.NonEmpty() && ys.NonEmpty() }
    predicate Contains(x: int, y: int) { xs.Contains(x) && ys.Contains(y) }
  }

  /** The size of one cell along an axis of `extent` pixels cut into `n` cells. */
  function CellSize(extent: int, n: int): real
    requires n >= 1
  {
    extent as real / n as real
  }

  /** The real start edge `i * size + 0.1 * size` of cell `i`'s rectangle. */
  function StartEdge(extent: int, n: int, i: int): real
    requires n >= 1
  {
    var size := CellSize(extent, n);
    i as real * size + size * 0.1
  }

  /** The real end edge `(i + 1) * size - 0.1 * size` of cell `i`'s rectangle. */
  function EndEdge(extent: int, n: int, i: int): real
    requires n >= 1
  {
    var size := CellSize(extent, n);
    (i + 1) as real * size - size * 0.1
  }

  /** The pixel span of cell `i` along an axis: both edges truncated, then
      clipped to [0, extent]. */
  function AxisSpan(extent: int, n: int, i: int): (s: Span)
    requires n >= 1 && extent >= 0
    ensures 0 <= s.lo <= extent && 0 <= s.hi <= extent
  {
    Span(Clip(Trunc(StartEdge(extent, n, i)), 0, extent),
         Clip(Trunc(EndEdge(extent, n, i)), 0, extent))
  }

  /** The pixel on grid line `g`, the truncated edge `g * size` shared by
      cells g - 1 and g. */
  function GridLine(extent: int, n: int, g: int): int
    requires n >= 1
  {
    Trunc(g as real * CellSize(extent, n))
  }

  // Facts about the cell size, proved once so that the lemmas below reason
  // about a plain real `size` rather than a quotient.

  lemma CellSizeFacts(extent: int, n: int)
    requires n >= 1 && extent >= 0
    ensures CellSize(extent, n) >= 0.0
    ensures n as real * CellSize(extent, n) == extent as real
    ensures extent >= 1 ==> CellSize(extent, n) > 0.0
    ensures extent >= 10 * n ==> CellSize(extent, n) >= 10.0
  {
    if extent >= 10 * n {
      CellSizeAtLeastTen(extent, n);
    }
  }

  /** The single fact most callers need, without the product that the
      full set of facts brings along. */
  lemma CellSizeNonNegative(extent: int, n: int)
    requires n >= 1 && extent >= 0
    ensures CellSize(extent, n) >= 0.0
  {
  }

  /** Cells are at least ten units across when the extent allows ten per cell. */
  lemma CellSizeAtLeastTen(extent: int, n: int)
    requires n >= 1 && extent >= 10 * n
    ensures CellSize(extent, n) >= 10.0
  {
    assert extent as real >= 10.0 * n as real;
    DivAtLeast(extent as real, n as real, 10.0);
  }

  lemma DivAtLeast(a: real, b: real, q: real)
    requires b > 0.0 && a >= q * b
    ensures a / b >= q
  {
    assert a / b - q == (a - q * b) / b;
  }

  lemma ScaleMonotone(a: real, b: real, s: real)
    requires a <= b && s >= 0.0
    ensures a * s <= b * s
  {
    assert b * s - a * s == (b - a) * s;
  }

  /** Inside a cell of a grid of `n` cells of size `size`, the inset edges
      are ordered and lie between 0 and the extent. */
  lemma InsetOrdered(i: int, n: int, size: real)
    requires 0 <= i < n && size >= 0.0
    ensures 0.0 <= i as real * size + size * 0.1
    ensures i as real * size + size * 0.1 <= (i + 1) as real * size - size * 0.1
    ensures (i + 1) as real * size - size * 0.1 <= n as real * size
  {
    ScaleMonotone(0.0, i as real, size);
    ScaleMonotone((i + 1) as real, n as real, size);
    assert (i + 1) as real * size == i as real * size + size;
  }

  /** The inset end edge `end` of cell `i` truncates to at most grid line
      `g > i`. */
  lemma EndBeforeLine(i: int, g: int, size: real, end: real)
    requires 0 <= i < g && size >= 0.0
    requires end == (i + 1) as real * size - size * 0.1
    ensures Trunc(end) <= Trunc(g as real * size)
  {
    ScaleMonotone((i + 1) as real, g as real, size);
    InsetOrdered(i, g, size);
    TruncMonotone(end, g as real * size);
  }

  /** The inset start edge of cell `i >= g` is at or after grid line `g`. */
  lemma LineBeforeStart(g: int, i: int, size: real, start: real)
    requires 0 <= g <= i && size >= 0.0
    requires start == i as real * size + size * 0.1
    ensures Trunc(g as real * size) <= Trunc(start)
  {
    ScaleMonotone(0.0, g as real, size);
    ScaleMonotone(g as real, i as real, size);
    TruncMonotone(g as real * size, start);
  }

  /** With a size of ten or more, the inset start edge of cell `i >= g` lies
      at least one unit past grid line `g`. */
  lemma PaddedStart(g: int, i: int, size: real, start: real)
    requires 0 <= g <= i && size >= 10.0
    requires start == i as real * size + size * 0.1
    ensures Trunc(g as real * size) < Trunc(start)
  {
    ScaleMonotone(0.0, g as real, size);
    ScaleMonotone(g as real, i as real, size);
    TruncGap(g as real * size, start);
  }

  /** A grid line before the last cell's end lies in [0, n * size). */
  lemma LineInside(g: int, n: int, size: real)
    requires 0 <= g < n && size > 0.0
    ensures 0.0 <= g as real * size < n as real * size
  {
    ScaleMonotone(0.0, g as real, size);
    ScaleMonotone((g + 1) as real, n as real, size);
    assert (g + 1) as real * size == g as real * size + size;
  }

  /** For a cell of the grid both real edges lie inside [0, extent] and the
      start edge does not pass the end edge. */
  lemma EdgesInside(extent: int, n: int, i: int)
    requires n >= 1 && extent >= 0 && 0 <= i < n
    ensures 0.0 <= StartEdge(extent, n, i) <= EndEdge(extent, n, i) <= extent as real
  {
    CellSizeFacts(extent, n);
    InsetOrdered(i, n, CellSize(extent, n));
    assert EndEdge(extent, n, i) <= n as real * CellSize(extent, n);
  }

  /** The padding: a rectangle keeps four fifths of its cell, neighbouring
      rectangles are a fifth of a cell apart, and consecutive cells start
      one cell size apart. */
  lemma EdgeInset(extent: int, n: int, i: int)
    requires n >= 1
    ensures EndEdge(extent, n, i) - StartEdge(extent, n, i) == 0.8 * CellSize(extent, n)
    ensures StartEdge(extent, n, i + 1) - EndEdge(extent, n, i) == 0.2 * CellSize(extent, n)
    ensures StartEdge(extent, n, i + 1) - StartEdge(extent, n, i) == CellSize(extent, n)
  {
    var size := CellSize(extent, n);
    assert (i + 1) as real * size == i as real * size + size;
    assert (i + 2) as real * size == i as real * size + 2.0 * size;
  }

  /** For a cell of the grid the clip changes nothing: the span is exactly
      the truncated inset edges. */
  lemma ClipIsNoOp(extent: int, n: int, i: int)
    requires n >= 1 && extent >= 0 && 0 <= i < n
    ensures AxisSpan(extent, n, i).lo == Trunc(StartEdge(extent, n, i))
    ensures AxisSpan(extent, n, i).hi == Trunc(EndEdge(extent, n, i))
  {
    EdgesInside(extent, n, i);
    TruncMonotone(EndEdge(extent, n, i), extent as real);
    TruncMonotone(StartEdge(extent, n, i), extent as real);
  }

  /** Truncating a non-negative value plus one adds one. */
  lemma TruncPlusOne(x: real)
    requires x >= 0.0
    ensures Trunc(x + 1.0) == Trunc(x) + 1
  {
  }

  /** Values at least one apart truncate to different integers. */
  lemma TruncGap(a: real, b: real)
    requires 0.0 <= a && a + 1.0 <= b
    ensures Trunc(a) < Trunc(b)
  {
    TruncMonotone(a + 1.0, b);
    TruncPlusOne(a);
  }

  /** Every cell before grid line `g` ends at or before it. */
  lemma EndsBeforeLine(extent: int, n: int, g: int, i: int)
    requires n >= 1 && extent >= 0 && 0 <= i < g < n
    ensures AxisSpan(extent, n, i).hi <= GridLine(extent, n, g)
  {
    CellSizeNonNegative(extent, n);
    EndBeforeLine(i, g, CellSize(extent, n), EndEdge(extent, n, i));
    ClipIsNoOp(extent, n, i);
  }

  /** Every cell from grid line `g` on starts at or after it. */
  lemma StartsFromLine(extent: int, n: int, g: int, i: int)
    requires n >= 1 && extent >= 0 && 0 <= g <= i < n
    ensures GridLine(extent, n, g) <= AxisSpan(extent, n, i).lo
  {
    CellSizeNonNegative(extent, n);
    LineBeforeStart(g, i, CellSize(extent, n), StartEdge(extent, n, i));
    ClipIsNoOp(extent, n, i);
  }

  lemma StartsAfterLine(extent: int, n: int, g: int, i: int)
    requires n >= 1 && extent >= 10 * n && 0 <= g <= i < n
    ensures GridLine(extent, n, g) < AxisSpan(extent, n, i).lo
  {
    CellSizeAtLeastTen(extent, n);
    PaddedStart(g, i, CellSize(extent, n), StartEdge(extent, n, i));
    ClipIsNoOp(extent, n, i);
  }

  /** A grid line of the grid lies on the canvas. */
  lemma GridLineInside(extent: int, n: int, g: int)
    requires n >= 1 && extent >= 1 && 0 <= g < n
    ensures 0 <= GridLine(extent, n, g) < extent
  {
    CellSizeFacts(extent, n);
    LineInside(g, n, CellSize(extent, n));
    TruncMonotone(0.0, g as real * CellSize(extent, n));
  }

  /** A cell's rectangle ends no later than any later cell's rectangle starts. */
  lemma SpansOrdered(extent: int, n: int, i: int, j: int)
    requires n >= 1 && extent >= 0 && 0 <= i < j < n
    ensures AxisSpan(extent, n, i).hi <= AxisSpan(extent, n, j).lo
  {
    EndsBeforeLine(extent, n, j, i);
    StartsFromLine(extent, n, j, j);
  }

  /** No pixel position lies in the spans of two different cells. */
  lemma SpansDisjoint(extent: int, n: int, i: int, j: int, pos: int)
    requires n >= 1 && extent >= 0 && 0 <= i < n && 0 <= j < n
    requires AxisSpan(extent, n, i).Contains(pos) && AxisSpan(extent, n, j).Contains(pos)
    ensures i == j
  {
    if i < j {
      SpansOrdered(extent, n, i, j);
    } else if j < i {
      SpansOrdered(extent, n, j, i);
    }
  }

  /** The rectangle of the cell in row `r`, column `c` of a `rows` by `cols`
      grid on a `width` by `height` canvas. */
  function CellRect(width: int, height: int, rows: int, cols: int, r: int, c: int): (q: Rect)
    requires rows >= 1 && cols >= 1 && width >= 0 && height >= 0
    ensures 0 <= q.xs.lo <= width && 0 <= q.xs.hi <= width
    ensures 0 <= q.ys.lo <= height && 0 <= q.ys.hi <= height
  {
    Rect(AxisSpan(width, cols, c), AxisSpan(height, rows, r))
  }

  /** Two cells of the grid whose rectangles share a pixel are the same cell. */
  lemma RectsDisjoint(width: int, height: int, rows: int, cols: int,
                      r: int, c: int, r': int, c': int, x: int, y: int)
    requires rows >= 1 && cols >= 1 && width >= 0 && height >= 0
    requires 0 <= r < rows && 0 <= c < cols && 0 <= r' < rows && 0 <= c' < cols
    requires CellRect(width, height, rows, cols, r, c).Contains(x, y)
    requires CellRect(width, height, rows, cols, r', c').Contains(x, y)
    ensures r == r' && c == c'
  {
    SpansDisjoint(width, cols, c, c', x);
    SpansDisjoint(height, rows, r, r', y);
  }

  /** Once a cell is at least ten pixels across, the pixel on each grid
      line lies inside the canvas and in no cell's span: the gutter between
      neighbouring rectangles is visible. */
  lemma GridLineUncovered(extent: int, n: int, g: int, i: int)
    requires n >= 1 && extent >= 10 * n && 0 <= g < n && 0 <= i < n
    ensures 0 <= GridLine(extent, n, g) < extent
    ensures !AxisSpan(extent, n, i).Contains(GridLine(extent, n, g))
  {
    GridLineInside(extent, n, g);
    if i < g {
      EndsBeforeLine(extent, n, g, i);
    } else {
      StartsAfterLine(extent, n, g, i);
    }
  }
}
