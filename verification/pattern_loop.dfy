/** The generator as the nested loops it is written as: an array of
    height x width x 4 channels filled with the background, the rectangle of
    every cell overwritten cell after cell, and the array read out in
    row-major order. Proved to return exactly the buffer of
    `Pattern.GeneratePattern`. */
module PatternLoop {
  import opened Params
  import opened Color
  import opened Geometry
  import opened Raster
  import opened Pattern

  /** The array holds, channel for channel, the pixels of `img`. */
  ghost predicate Mirrors(image: array3<real>, img: Image)
    reads image
  {
    && image.Length2 == 4
    && Shaped(img, image.Length1, image.Length0)
    && forall y, x, k :: 0 <= y < image.Length0 && 0 <= x < image.Length1 && 0 <= k < 4 ==>
         image[y, x, k] == Channel(img[y][x], k)
  }

  /** `image[ys.lo:ys.hi, xs.lo:xs.hi, :] = px`: overwrites the pixels of
      `rect`, row by row, and nothing else. */
  method PaintRect(image: array3<real>, rect: Rect, px: Rgba, ghost img: Image)
    requires Mirrors(image, img)
    requires 0 <= rect.xs.lo && rect.xs.hi <= image.Length1
    requires 0 <= rect.ys.lo && rect.ys.hi <= image.Length0
    modifies image
    ensures Mirrors(image, Fill(img, rect, px))
  {
    var y := rect.ys.lo;
    while y < rect.ys.hi
      invariant y == rect.ys.lo || rect.ys.lo < y <= rect.ys.hi
      invariant forall y', x', k :: 0 <= y' < image.Length0 && 0 <= x' < image.Length1 && 0 <= k < 4 ==>
                  image[y', x', k] == Channel(if rect.ys.lo <= y' < y && rect.xs.Contains(x') then px else img[y'][x'], k)
    {
      var x := rect.xs.lo;
      while x < rect.xs.hi
        invariant x == rect.xs.lo || rect.xs.lo < x <= rect.xs.hi
        invariant forall y', x', k :: 0 <= y' < image.Length0 && 0 <= x' < image.Length1 && 0 <= k < 4 ==>
                    image[y', x', k] ==
                    Channel(if (rect.ys.lo <= y' < y && rect.xs.Contains(x')) || (y' == y && rect.xs.lo <= x' < x)
                            then px else img[y'][x'], k)
      {
        image[y, x, 0] := Channel(px, 0);
        image[y, x, 1] := Channel(px, 1);
        image[y, x, 2] := Channel(px, 2);
        image[y, x, 3] := Channel(px, 3);
        x := x + 1;
      }
      y := y + 1;
    }
  }

  /** One axis of a cell's rectangle computed step by step as the generator
      does: cell size, padding, truncated edges, clip to the canvas. */
  method AxisExtent(extent: nat, n: int, i: int) returns (span: Span)
    requires n >= 1
    ensures 0 <= span.lo <= extent && 0 <= span.hi <= extent
    ensures 0 <= i < n ==> span == Span(Trunc(StartEdge(extent, n, i)), Trunc(EndEdge(extent, n, i)))
    ensures span == AxisSpan(extent, n, i)
  {
    var cellSize := extent as real / n as real;
    var padding := cellSize * 0.1;
    var start := Trunc(i as real * cellSize + padding);
    assert start == Trunc(StartEdge(extent, n, i));
    var end := Trunc((i + 1) as real * cellSize - padding);
    assert end == Trunc(EndEdge(extent, n, i));
    span := Span(Clip(start, 0, extent), Clip(end, 0, extent));
    if 0 <= i < n {
      ClipIsNoOp(extent, n, i);
    }
  }

  /** The rectangle of cell (r, c): columns from the width and the number
      of columns, rows from the height and the number of rows. */
  method CellExtent(width: nat, height: nat, p: Params, r: int, c: int) returns (rect: Rect)
    requires Valid(width, height, p)
    ensures 0 <= rect.xs.lo <= width && 0 <= rect.xs.hi <= width
    ensures 0 <= rect.ys.lo <= height && 0 <= rect.ys.hi <= height
    ensures 0 <= c < p.cols ==> rect.xs == Span(Trunc(StartEdge(width, p.cols, c)), Trunc(EndEdge(width, p.cols, c)))
    ensures 0 <= r < p.rows ==> rect.ys == Span(Trunc(StartEdge(height, p.rows, r)), Trunc(EndEdge(height, p.rows, r)))
    ensures rect == RectOf(width, height, p, r, c)
  {
    var xs := AxisExtent(width, p.cols, c);
    var ys := AxisExtent(height, p.rows, r);
    rect := Rect(xs, ys);
  }

  /** One channel as the generator computes it: the base shifted by
      `(idx / max(1, last) - 0.5) * factor` when `shift` holds, then
      `max(0.0, min(1.0, ...))` around both arms of the conditional. The
      caller passes its own guard (`rows > 1`, `cols > 1`,
      `rows + cols > 2`) as `shift`. */
  method ShadeChannel(base: real, idx: int, last: int, factor: real, shift: bool) returns (v: real)
    requires shift <==> last > 0
    ensures 0.0 <= v <= 1.0
    ensures last > 0 ==> v == Clamp01(base + Offset(idx, last, factor))
    ensures last <= 0 ==> v == Clamp01(base)
    ensures v == Vary(base, idx, last, factor)
  {
    var divisor := MaxInt(1, last);
    var raw := if shift then base + (idx as real / divisor as real - 0.5) * factor else base;
    v := MaxReal(0.0, MinReal(1.0, raw));
    assert v == Clamp01(raw);
    if shift {
      assert divisor == last;
      assert raw == base + Offset(idx, last, factor);
    }
  }

  /** The colour of cell (r, c) as the generator computes it, channel by
      channel, opaque. */
  method CellShade(p: Params, r: int, c: int) returns (px: Rgba)
    ensures px.a == 1.0 && px.InUnitRange()
    ensures p.rows > 1 ==> px.r == Clamp01(p.base.r + Offset(r, p.rows - 1, p.vary))
    ensures p.rows <= 1 ==> px.r == Clamp01(p.base.r)
    ensures p.cols > 1 ==> px.g == Clamp01(p.base.g + Offset(c, p.cols - 1, p.vary))
    ensures p.cols <= 1 ==> px.g == Clamp01(p.base.g)
    ensures p.rows + p.cols > 2 ==> px.b == Clamp01(p.base.b + Offset(r + c, p.rows + p.cols - 2, p.vary))
    ensures p.rows + p.cols <= 2 ==> px.b == Clamp01(p.base.b)
    ensures px == CellPixel(p, r, c)
  {
    var varyR := ShadeChannel(p.base.r, r, p.rows - 1, p.vary, p.rows > 1);
    var varyG := ShadeChannel(p.base.g, c, p.cols - 1, p.vary, p.cols > 1);
    var varyB := ShadeChannel(p.base.b, r + c, p.rows + p.cols - 2, p.vary, p.rows + p.cols > 2);
    px := Rgba(varyR, varyG, varyB, 1.0);
    CellPixelColor(p, r, c);
  }

  /** The inner loop over the columns of row `r`: every cell's colour and
      clipped rectangle computed step by step, and the rectangle painted
      when it covers at least one pixel. */
  method PaintRow(image: array3<real>, width: nat, height: nat, p: Params, r: int, ghost rowStart: Image)
    requires Valid(width, height, p)
    requires image.Length0 == height && image.Length1 == width
    requires Mirrors(image, rowStart)
    modifies image
    ensures Mirrors(image, DrawRow(width, height, p, rowStart, r, p.cols))
  {
    var c := 0;
    while c < p.cols
      invariant 0 <= c <= p.cols
      invariant Mirrors(image, DrawRow(width, height, p, rowStart, r, c))
    {
      var color := CellShade(p, r, c);
      var rect := CellExtent(width, height, p, r, c);
      if rect.xs.lo < rect.xs.hi && rect.ys.lo < rect.ys.hi {
        PaintRect(image, rect, color, DrawRow(width, height, p, rowStart, r, c));
      }
      c := c + 1;
    }
  }

  /** The outer loop over the rows of the grid, painting them in order. */
  method PaintCells(image: array3<real>, width: nat, height: nat, p: Params, ghost start: Image)
    requires Valid(width, height, p)
    requires image.Length0 == height && image.Length1 == width
    requires Mirrors(image, start)
    modifies image
    ensures Mirrors(image, DrawRows(width, height, p, start, p.rows))
  {
    var r := 0;
    while r < p.rows
      invariant 0 <= r <= p.rows
      invariant Mirrors(image, DrawRows(width, height, p, start, r))
    {
      PaintRow(image, width, height, p, r, DrawRows(width, height, p, start, r));
      r := r + 1;
    }
  }

  /** `image.flatten()`: the channels of the array read out row by row,
      pixel by pixel. */
  method ReadOut(image: array3<real>, ghost img: Image) returns (buf: seq<real>)
    requires Mirrors(image, img)
    ensures buf == Flatten(img)
  {
    var height := image.Length0;
    var width := image.Length1;
    buf := [];
    var y := 0;
    while y < height
      invariant 0 <= y <= height
      invariant buf == Flatten(img[..y])
    {
      var row := [];
      var x := 0;
      while x < width
        invariant 0 <= x <= width
        invariant row == FlattenRow(img[y][..x])
      {
        var px := Rgba(image[y, x, 0], image[y, x, 1], image[y, x, 2], image[y, x, 3]);
        assert px == img[y][x];
        assert img[y][..x + 1] == img[y][..x] + [img[y][x]];
        FlattenRowAppend(img[y][..x], [img[y][x]]);
        row := row + px.Channels();
        x := x + 1;
      }
      assert img[y][..width] == img[y];
      assert img[..y + 1] == img[..y] + [img[y]];
      FlattenAppend(img[..y], [img[y]]);
      buf := buf + row;
      y := y + 1;
    }
    assert img[..height] == img;
  }

  /** `generate_pattern_numpy` as loops over an array; returns exactly the
      buffer the functional model describes. */
  method GeneratePatternLoop(width: nat, height: nat, s: Settings) returns (buf: seq<real>)
    requires Valid(width, height, Resolve(s))
    ensures buf == GeneratePattern(width, height, s)
  {
    var p := Resolve(s);
    var bg := BackgroundPixel(p);
    var image := new real[height, width, 4]((y, x, k) => if 0 <= k < 4 then Channel(bg, k) else 0.0);
    ghost var start := Solid(width, height, bg);
    PaintCells(image, width, height, p, start);
    buf := ReadOut(image, Render(width, height, p));
  }
}
