/** The pattern generator: a background colour, then the padded rectangle
    of every grid cell painted in its own colour, cell after cell in
    row-major order, and the image returned as a flat RGBA buffer. */
module Pattern {
  import opened Params
  import opened Color
  import opened Geometry
  import opened Raster

  /** The colour every pixel starts with: the background colour, opaque. */
  function BackgroundPixel(p: Params): (px: Rgba)
    ensures px.a == 1.0
    ensures Rgb(px.r, px.g, px.b) == p.bg
    ensures px.InUnitRange() <==> p.bg.InUnitRange()
  {
    Rgba(p.bg.r, p.bg.g, p.bg.b, 1.0)
  }

  /** The pixel the rectangle of cell (r, c) is painted with: the cell
      colour, opaque. */
  function CellPixel(p: Params, r: int, c: int): (px: Rgba)
    ensures px.InUnitRange() && px.a == 1.0
  {
    var k := CellColor(p, r, c);
    Rgba(k.r, k.g, k.b, 1.0)
  }

  /** The painted pixel carries the cell colour of the grid position in
      its red, green and blue channels. */
  lemma CellPixelColor(p: Params, r: int, c: int)
    ensures Rgb(CellPixel(p, r, c).r, CellPixel(p, r, c).g, CellPixel(p, r, c).b) == CellColor(p, r, c)
  {
  }

  /** The rectangle of cell (r, c) for the grid of `p`. */
  function RectOf(width: nat, height: nat, p: Params, r: int, c: int): Rect
    requires Valid(width, height, p)
  {
    CellRect(width, height, p.rows, p.cols, r, c)
  }

  /** Paints the rectangle of cell (r, c) if it covers at least one pixel. */
  function DrawCell(width: nat, height: nat, p: Params, img: Image, r: int, c: int): (out: Image)
    requires Valid(width, height, p) && Shaped(img, width, height)
    ensures Shaped(out, width, height)
    ensures forall y, x :: 0 <= y < height && 0 <= x < width ==>
              out[y][x] == (if RectOf(width, height, p, r, c).Contains(x, y) then CellPixel(p, r, c) else img[y][x])
  {
    var rect := RectOf(width, height, p, r, c);
    if rect.NonEmpty() then Fill(img, rect, CellPixel(p, r, c)) else img
  }

  /** Paints cells (r, 0), ..., (r, n - 1) in that order. */
  function DrawRow(width: nat, height: nat, p: Params, img: Image, r: int, n: nat): (out: Image)
    requires Valid(width, height, p) && Shaped(img, width, height)
    ensures Shaped(out, width, height)
    decreases n
  {
    if n == 0 then img else DrawCell(width, height, p, DrawRow(width, height, p, img, r, n - 1), r, n - 1)
  }

  /** Paints every cell of rows 0, ..., m - 1, row after row. */
  function DrawRows(width: nat, height: nat, p: Params, img: Image, m: nat): (out: Image)
    requires Valid(width, height, p) && Shaped(img, width, height)
    ensures Shaped(out, width, height)
    decreases m
  {
    if m == 0 then img else DrawRow(width, height, p, DrawRows(width, height, p, img, m - 1), m - 1, p.cols)
  }

  /** The finished image: the background with every cell painted. */
  function Render(width: nat, height: nat, p: Params): (img: Image)
    requires Valid(width, height, p)
    ensures Shaped(img, width, height)
  {
    DrawRows(width, height, p, Solid(width, height, BackgroundPixel(p)), p.rows)
  }

  /** `generate_pattern_numpy(width, height, params)`: the defaults applied
      to the parameter dictionary, the image rendered and flattened. */
  function GeneratePattern(width: nat, height: nat, s: Settings): (buf: seq<real>)
    requires Valid(width, height, Resolve(s))
    ensures |buf| == width * height * 4
  {
    var img := Render(width, height, Resolve(s));
    FlattenLength(img, width, height);
    Flatten(img)
  }

  /** Some cell of the first `m` rows has a rectangle containing (x, y). */
  predicate CoveredBefore(width: nat, height: nat, p: Params, m: int, x: int, y: int)
    requires Valid(width, height, p)
  {
    exists r, c :: 0 <= r < m && 0 <= c < p.cols && RectOf(width, height, p, r, c).Contains(x, y)
  }

  /** A pixel that no cell of the first `n` of row r covers is left as it was. */
  lemma {:induction false} DrawRowMiss(width: nat, height: nat, p: Params, img: Image, r: int, n: nat, x: int, y: int)
    requires Valid(width, height, p) && Shaped(img, width, height)
    requires 0 <= x < width && 0 <= y < height
    requires forall c :: 0 <= c < n ==> !RectOf(width, height, p, r, c).Contains(x, y)
    ensures DrawRow(width, height, p, img, r, n)[y][x] == img[y][x]
  {
    if n > 0 {
      DrawRowMiss(width, height, p, img, r, n - 1, x, y);
    }
  }

  /** A pixel inside the rectangle of cell (r, c) holds that cell's colour
      once the row has been painted past column c. */
  lemma {:induction false} DrawRowHit(width: nat, height: nat, p: Params, img: Image, r: int, n: nat, c: int, x: int, y: int)
    requires Valid(width, height, p) && Shaped(img, width, height)
    requires 0 <= x < width && 0 <= y < height
    requires 0 <= r < p.rows && 0 <= c < n <= p.cols
    requires RectOf(width, height, p, r, c).Contains(x, y)
    ensures DrawRow(width, height, p, img, r, n)[y][x] == CellPixel(p, r, c)
  {
    if c < n - 1 {
      DrawRowHit(width, height, p, img, r, n - 1, c, x, y);
      if RectOf(width, height, p, r, n - 1).Contains(x, y) {
        RectsDisjoint(width, height, p.rows, p.cols, r, c, r, n - 1, x, y);
      }
    }
  }

  /** A pixel that no cell of the first `m` rows covers is left as it was. */
  lemma {:induction false} DrawRowsMiss(width: nat, height: nat, p: Params, img: Image, m: nat, x: int, y: int)
    requires Valid(width, height, p) && Shaped(img, width, height)
    requires 0 <= x < width && 0 <= y < height
    requires !CoveredBefore(width, height, p, m, x, y)
    ensures DrawRows(width, height, p, img, m)[y][x] == img[y][x]
  {
    if m > 0 {
      DrawRowsMiss(width, height, p, img, m - 1, x, y);
      DrawRowMiss(width, height, p, DrawRows(width, height, p, img, m - 1), m - 1, p.cols, x, y);
    }
  }

  /** A pixel inside the rectangle of cell (r, c) holds that cell's colour
      once row r has been painted; no later cell paints over it. */
  lemma {:induction false} DrawRowsHit(width: nat, height: nat, p: Params, img: Image, m: nat, r: int, c: int, x: int, y: int)
    requires Valid(width, height, p) && Shaped(img, width, height)
    requires 0 <= x < width && 0 <= y < height
    requires 0 <= r < m <= p.rows && 0 <= c < p.cols
    requires RectOf(width, height, p, r, c).Contains(x, y)
    ensures DrawRows(width, height, p, img, m)[y][x] == CellPixel(p, r, c)
  {
    var before := DrawRows(width, height, p, img, m - 1);
    if r == m - 1 {
      DrawRowHit(width, height, p, before, r, p.cols, c, x, y);
    } else {
      var last := m - 1;
      DrawRowsHit(width, height, p, img, last, r, c, x, y);
      forall c' | 0 <= c' < p.cols
        ensures !RectOf(width, height, p, last, c').Contains(x, y)
      {
        if RectOf(width, height, p, last, c').Contains(x, y) {
          RectsDisjoint(width, height, p.rows, p.cols, r, c, last, c', x, y);
        }
      }
      DrawRowMiss(width, height, p, before, last, p.cols, x, y);
    }
  }

  /** Every pixel inside the rectangle of a cell of the grid has that
      cell's colour in the finished image. */
  lemma RenderInCell(width: nat, height: nat, p: Params, r: int, c: int, x: int, y: int)
    requires Valid(width, height, p)
    requires 0 <= r < p.rows && 0 <= c < p.cols && 0 <= x < width && 0 <= y < height
    requires RectOf(width, height, p, r, c).Contains(x, y)
    ensures Render(width, height, p)[y][x] == CellPixel(p, r, c)
  {
    DrawRowsHit(width, height, p, Solid(width, height, BackgroundPixel(p)), p.rows, r, c, x, y);
  }

  /** Every pixel outside all cell rectangles keeps the background colour. */
  lemma RenderOutsideCells(width: nat, height: nat, p: Params, x: int, y: int)
    requires Valid(width, height, p)
    requires 0 <= x < width && 0 <= y < height
    requires forall r, c :: 0 <= r < p.rows && 0 <= c < p.cols ==> !RectOf(width, height, p, r, c).Contains(x, y)
    ensures Render(width, height, p)[y][x] == BackgroundPixel(p)
  {
    DrawRowsMiss(width, height, p, Solid(width, height, BackgroundPixel(p)), p.rows, x, y);
  }

  /** The whole finished image at once: every pixel inside a cell's
      rectangle has that cell's colour, every other pixel the background. */
  lemma RenderCharacterization(width: nat, height: nat, p: Params)
    requires Valid(width, height, p)
    ensures forall r, c, x, y ::
              0 <= r < p.rows && 0 <= c < p.cols && 0 <= x < width && 0 <= y < height &&
              RectOf(width, height, p, r, c).Contains(x, y)
              ==> Render(width, height, p)[y][x] == CellPixel(p, r, c)
    ensures forall x, y :: 0 <= x < width && 0 <= y < height && !CoveredBefore(width, height, p, p.rows, x, y) ==>
              Render(width, height, p)[y][x] == BackgroundPixel(p)
  {
    forall r, c, x, y | 0 <= r < p.rows && 0 <= c < p.cols && 0 <= x < width && 0 <= y < height &&
                        RectOf(width, height, p, r, c).Contains(x, y)
      ensures Render(width, height, p)[y][x] == CellPixel(p, r, c)
    {
      RenderInCell(width, height, p, r, c, x, y);
    }
    forall x, y | 0 <= x < width && 0 <= y < height && !CoveredBefore(width, height, p, p.rows, x, y)
      ensures Render(width, height, p)[y][x] == BackgroundPixel(p)
    {
      RenderOutsideCells(width, height, p, x, y);
    }
  }

  /** Every pixel of the finished image is opaque, is the background or the
      colour of a cell whose rectangle contains it, and lies in [0,1] when
      the background colour does. */
  lemma RenderPixel(width: nat, height: nat, p: Params, x: int, y: int)
    requires Valid(width, height, p)
    requires 0 <= x < width && 0 <= y < height
    ensures Render(width, height, p)[y][x].a == 1.0
    ensures Render(width, height, p)[y][x] == BackgroundPixel(p) ||
            exists r, c :: 0 <= r < p.rows && 0 <= c < p.cols &&
              RectOf(width, height, p, r, c).Contains(x, y) &&
              Render(width, height, p)[y][x] == CellPixel(p, r, c)
    ensures p.bg.InUnitRange() ==> Render(width, height, p)[y][x].InUnitRange()
  {
    if CoveredBefore(width, height, p, p.rows, x, y) {
      var r, c :| 0 <= r < p.rows && 0 <= c < p.cols && RectOf(width, height, p, r, c).Contains(x, y);
      RenderInCell(width, height, p, r, c, x, y);
    } else {
      RenderOutsideCells(width, height, p, x, y);
    }
  }

  /** Channel `k` of pixel (x, y) of the finished image sits at position
      `(y * width + x) * 4 + k` of the returned buffer. */
  lemma PatternLayout(width: nat, height: nat, s: Settings, x: int, y: int, k: int)
    requires Valid(width, height, Resolve(s))
    requires 0 <= x < width && 0 <= y < height && 0 <= k < 4
    ensures GeneratePattern(width, height, s)[FlatPos(width, height, y, x, k)] ==
            Channel(Render(width, height, Resolve(s))[y][x], k)
  {
    FlattenAt(Render(width, height, Resolve(s)), width, height, y, x, k);
  }

  /** The four values from position `(y * width + x) * 4` on are the red,
      green, blue and alpha channels of pixel (x, y). */
  lemma PatternPixel(width: nat, height: nat, s: Settings, x: int, y: int)
    requires Valid(width, height, Resolve(s))
    requires 0 <= x < width && 0 <= y < height
    ensures FlatPos(width, height, y, x, 3) < |GeneratePattern(width, height, s)|
    ensures GeneratePattern(width, height, s)[FlatPos(width, height, y, x, 0)..FlatPos(width, height, y, x, 3) + 1] ==
            Render(width, height, Resolve(s))[y][x].Channels()
  {
    var buf := GeneratePattern(width, height, s);
    var px := Render(width, height, Resolve(s))[y][x];
    var i := FlatPos(width, height, y, x, 0);
    forall k | 0 <= k < 4
      ensures buf[i + k] == px.Channels()[k]
    {
      assert FlatPos(width, height, y, x, k) == i + k;
      PatternLayout(width, height, s, x, y, k);
    }
  }

  /** Every fourth value of the buffer, the alpha channel, is 1, and every
      value lies in [0,1] when the background colour does. */
  lemma PatternChannels(width: nat, height: nat, s: Settings)
    requires Valid(width, height, Resolve(s))
    ensures forall i :: 0 <= i < |GeneratePattern(width, height, s)| && i % 4 == 3 ==>
              GeneratePattern(width, height, s)[i] == 1.0
    ensures Resolve(s).bg.InUnitRange() ==>
              forall i :: 0 <= i < |GeneratePattern(width, height, s)| ==>
                0.0 <= GeneratePattern(width, height, s)[i] <= 1.0
  {
    var buf := GeneratePattern(width, height, s);
    forall i | 0 <= i < |buf|
      ensures i % 4 == 3 ==> buf[i] == 1.0
      ensures Resolve(s).bg.InUnitRange() ==> 0.0 <= buf[i] <= 1.0
    {
      var y, x, k := FlatIndex(i, width, height);
      PatternLayout(width, height, s, x, y, k);
      RenderPixel(width, height, Resolve(s), x, y);
    }
  }

  /** In the buffer, a pixel inside the rectangle of cell (r, c) carries that
      cell's colour and alpha 1. */
  lemma PatternInCell(width: nat, height: nat, s: Settings, r: int, c: int, x: int, y: int, k: int)
    requires Valid(width, height, Resolve(s))
    requires 0 <= r < Resolve(s).rows && 0 <= c < Resolve(s).cols
    requires 0 <= x < width && 0 <= y < height && 0 <= k < 4
    requires RectOf(width, height, Resolve(s), r, c).Contains(x, y)
    ensures GeneratePattern(width, height, s)[FlatPos(width, height, y, x, k)] ==
            Channel(CellPixel(Resolve(s), r, c), k)
  {
    PatternLayout(width, height, s, x, y, k);
    RenderInCell(width, height, Resolve(s), r, c, x, y);
  }

  /** In the buffer, a pixel outside every cell rectangle carries the
      background colour and alpha 1. */
  lemma PatternOutsideCells(width: nat, height: nat, s: Settings, x: int, y: int, k: int)
    requires Valid(width, height, Resolve(s))
    requires 0 <= x < width && 0 <= y < height && 0 <= k < 4
    requires forall r, c :: 0 <= r < Resolve(s).rows && 0 <= c < Resolve(s).cols ==>
               !RectOf(width, height, Resolve(s), r, c).Contains(x, y)
    ensures GeneratePattern(width, height, s)[FlatPos(width, height, y, x, k)] ==
            Channel(BackgroundPixel(Resolve(s)), k)
  {
    PatternLayout(width, height, s, x, y, k);
    RenderOutsideCells(width, height, Resolve(s), x, y);
  }

  /** With cells at least ten pixels wide, every pixel of the column on a
      vertical grid line keeps the background colour. */
  lemma VerticalGutter(width: nat, height: nat, p: Params, g: int, y: int)
    requires Valid(width, height, p)
    requires width >= 10 * p.cols && 0 <= g < p.cols && 0 <= y < height
    ensures 0 <= GridLine(width, p.cols, g) < width
    ensures Render(width, height, p)[y][GridLine(width, p.cols, g)] == BackgroundPixel(p)
  {
    var x := GridLine(width, p.cols, g);
    GridLineUncovered(width, p.cols, g, 0);
    forall r, c | 0 <= r < p.rows && 0 <= c < p.cols
      ensures !RectOf(width, height, p, r, c).Contains(x, y)
    {
      GridLineUncovered(width, p.cols, g, c);
    }
    RenderOutsideCells(width, height, p, x, y);
  }

  /** With cells at least ten pixels tall, every pixel of the row on a
      horizontal grid line keeps the background colour. */
  lemma HorizontalGutter(width: nat, height: nat, p: Params, g: int, x: int)
    requires Valid(width, height, p)
    requires height >= 10 * p.rows && 0 <= g < p.rows && 0 <= x < width
    ensures 0 <= GridLine(height, p.rows, g) < height
    ensures Render(width, height, p)[GridLine(height, p.rows, g)][x] == BackgroundPixel(p)
  {
    var y := GridLine(height, p.rows, g);
    GridLineUncovered(height, p.rows, g, 0);
    forall r, c | 0 <= r < p.rows && 0 <= c < p.cols
      ensures !RectOf(width, height, p, r, c).Contains(x, y)
    {
      GridLineUncovered(height, p.rows, g, r);
    }
    RenderOutsideCells(width, height, p, x, y);
  }

  /** A one-cell grid paints its rectangle in the base colour, clamped into
      [0,1]: there is no variation, but the clamp still applies. */
  lemma SingleCellColor(width: nat, height: nat, p: Params, x: int, y: int)
    requires Valid(width, height, p) && p.rows == 1 && p.cols == 1
    requires 0 <= x < width && 0 <= y < height
    requires RectOf(width, height, p, 0, 0).Contains(x, y)
    ensures Render(width, height, p)[y][x] ==
            Rgba(Clamp01(p.base.r), Clamp01(p.base.g), Clamp01(p.base.b), 1.0)
  {
    RenderInCell(width, height, p, 0, 0, x, y);
  }

  /** A one-pixel canvas with a one-cell grid: the inset rectangle truncates
      to nothing and the buffer is the background pixel alone. */
  lemma OnePixelCanvas(s: Settings)
    requires Resolve(s).rows == 1 && Resolve(s).cols == 1
    ensures GeneratePattern(1, 1, s) ==
            [Resolve(s).bg.r, Resolve(s).bg.g, Resolve(s).bg.b, 1.0]
  {
    var p := Resolve(s);
    var buf := GeneratePattern(1, 1, s);
    assert AxisSpan(1, 1, 0) == Span(0, 0);
    forall k | 0 <= k < 4
      ensures buf[k] == Channel(BackgroundPixel(p), k)
    {
      PatternOutsideCells(1, 1, s, 0, 0, k);
    }
  }
}
