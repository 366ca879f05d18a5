/** The colour of one grid cell: the base colour shifted along the row for
    red, along the column for green and along the diagonal for blue, each
    channel clamped into [0,1]. */
module Color {
  import opened Params

  function MaxReal(a: real, b: real): real { if a >= b then a else b }
  function MinReal(a: real, b: real): real { if a <= b then a else b }
  function MaxInt(a: int, b: int): int { if a >= b then a else b }

  /** `max(0.0, min(1.0, x))`: the point of [0,1] nearest to `x`. */
  function Clamp01(x: real): (y: real)
    ensures 0.0 <= y <= 1.0
    ensures 0.0 <= x <= 1.0 ==> y == x
    ensures x < 0.0 ==> y == 0.0
    ensures x > 1.0 ==> y == 1.0
  {
    MaxReal(0.0, MinReal(1.0, x))
  }

  /** Clamping never reverses the order of two values. */
  lemma Clamp01Monotone(x: real, y: real)
    requires x <= y
    ensures Clamp01(x) <= Clamp01(y)
  {
  }

  /** The shift the variation adds to a base channel for position `idx` of
      an axis whose last position is `span`: from -factor/2 at the first
      position to +factor/2 at the last. */
  function Offset(idx: int, span: int, factor: real): real
    requires span > 0
  {
    (idx as real / span as real - 0.5) * factor
  }

  /** One varied channel. `idx` is the cell's position along the axis the
      channel follows and `span` is the largest such position (rows - 1,
      cols - 1 or rows + cols - 2); the variation is applied only when the
      axis has more than one position, i.e. when `span > 0`. The clamp
      encloses both arms of the conditional. */
  function Vary(base: real, idx: int, span: int, factor: real): (v: real)
    ensures 0.0 <= v <= 1.0
    ensures span <= 0 ==> v == Clamp01(base)
    ensures span > 0 ==> v == Clamp01(base + Offset(idx, span, factor))
  {
    Clamp01(if span > 0 then base + (idx as real / MaxInt(1, span) as real - 0.5) * factor else base)
  }

  /** The colour of the rectangle in row `r`, column `c`. */
  function CellColor(p: Params, r: int, c: int): (k: Rgb)
    ensures k.InUnitRange()
    ensures p.rows > 1 ==> k.r == Clamp01(p.base.r + Offset(r, p.rows - 1, p.vary))
    ensures p.rows <= 1 ==> k.r == Clamp01(p.base.r)
    ensures p.cols > 1 ==> k.g == Clamp01(p.base.g + Offset(c, p.cols - 1, p.vary))
    ensures p.cols <= 1 ==> k.g == Clamp01(p.base.g)
    ensures p.rows + p.cols > 2 ==> k.b == Clamp01(p.base.b + Offset(r + c, p.rows + p.cols - 2, p.vary))
    ensures p.rows + p.cols <= 2 ==> k.b == Clamp01(p.base.b)
  {
    Rgb(Vary(p.base.r, r, p.rows - 1, p.vary),
        Vary(p.base.g, c, p.cols - 1, p.vary),
        Vary(p.base.b, r + c, p.rows + p.cols - 2, p.vary))
  }

  /** Red follows the row only, green the column only, and blue only the sum
      of row and column: cells that agree on that coordinate agree on the
      channel. */
  lemma ChannelCoupling(p: Params, r: int, c: int, r': int, c': int)
    ensures r == r' ==> CellColor(p, r, c).r == CellColor(p, r', c').r
    ensures c == c' ==> CellColor(p, r, c).g == CellColor(p, r', c').g
    ensures r + c == r' + c' ==> CellColor(p, r, c).b == CellColor(p, r', c').b
  {
  }

  /** The shift grows with the position when the factor is non-negative. */
  lemma OffsetMonotone(i: int, j: int, span: int, factor: real)
    requires 0 <= i <= j && span > 0 && factor >= 0.0
    ensures Offset(i, span, factor) <= Offset(j, span, factor)
  {
    var s := span as real;
    DivMonotone(i as real, j as real, s);
    MulMonotone(i as real / s - 0.5, j as real / s - 0.5, factor);
  }

  /** A channel never decreases along its axis when the variation factor is
      non-negative. */
  lemma VaryMonotone(base: real, i: int, j: int, span: int, factor: real)
    requires 0 <= i <= j && factor >= 0.0
    ensures Vary(base, i, span, factor) <= Vary(base, j, span, factor)
  {
    if span > 0 {
      OffsetMonotone(i, j, span, factor);
      Clamp01Monotone(base + Offset(i, span, factor), base + Offset(j, span, factor));
    }
  }

  lemma DivMonotone(x: real, y: real, s: real)
    requires x <= y && s > 0.0
    ensures x / s <= y / s
  {
    assert y / s - x / s == (y - x) / s;
  }

  lemma MulMonotone(x: real, y: real, f: real)
    requires x <= y && f >= 0.0
    ensures x * f <= y * f
  {
    assert y * f - x * f == (y - x) * f;
  }

  /** With a non-negative variation factor, red grows row by row, green
      column by column and blue along the diagonal. */
  lemma CellColorMonotone(p: Params, r: int, c: int, r': int, c': int)
    requires p.vary >= 0.0
    requires 0 <= r <= r' && 0 <= c <= c'
    ensures CellColor(p, r, c).r <= CellColor(p, r', c').r
    ensures CellColor(p, r, c).g <= CellColor(p, r', c').g
    ensures CellColor(p, r, c).b <= CellColor(p, r', c').b
  {
    VaryMonotone(p.base.r, r, r', p.rows - 1, p.vary);
    VaryMonotone(p.base.g, c, c', p.cols - 1, p.vary);
    VaryMonotone(p.base.b, r + c, r' + c', p.rows + p.cols - 2, p.vary);
  }
}
