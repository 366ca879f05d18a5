# Procedural rectangle-grid pattern generator, modelled in Dafny

The repository's one piece of real logic is `generate_pattern_numpy(width, height, params)`
in `poc_generative_art.py`. It takes a canvas size and a parameter dictionary and returns
a flat, row-major RGBA float buffer. The buffer shows a `rows` by `cols` grid of
rectangles over a background colour:

1. Every key of the dictionary that is missing falls back to a default: 5 rows,
   5 columns, background (0.1, 0.1, 0.1), base colour (0.2, 0.5, 0.8), variation 0.3.
2. Every pixel starts as the background colour with alpha 1.
3. Cells are `width / cols` by `height / rows` real-valued pixels. Each rectangle is
   inset by a tenth of the cell size on every side.
4. Each cell gets its own colour. Red shifts with the row, green with the column and
   blue with row + column, each by `(position / last position - 0.5) * vary`. The
   shift is applied only when that axis has more than one position. The clamp into
   [0,1] applies in both cases.
5. The real rectangle edges are truncated to integers and clipped to the canvas. A
   rectangle that covers at least one pixel is painted, cell after cell in row-major order.
6. The height x width x 4 image is flattened row by row, R, G, B, A per pixel.

The model is split into modules that follow those steps:

- `params.dfy` (`Params`): the dictionary (`Settings`, one `Option` per key), the
  defaults, and `Resolve`, which applies the defaults.
- `color.dfy` (`Color`): `Clamp01`, the varied channel `Vary`, and `CellColor`.
- `geometry.dfy` (`Geometry`): truncation toward zero (`Trunc`, Python's `int()` on a
  float), `numpy.clip` on integers (`Clip`), the inset spans of each cell, and the
  facts that make the grid well behaved. For valid inputs the clip changes nothing,
  no two cells share a pixel, and with cells at least ten pixels across every grid
  line is gutter.
- `raster.dfy` (`Raster`): images as `seq<seq<Rgba>>` indexed `[y][x]`, the
  rectangular overwrite `Fill`, and the row-major flattening with its index layout.
- `pattern.dfy` (`Pattern`): the generator itself (`Render`, `GeneratePattern`) and
  what it promises per pixel and per buffer position.
- `scenario.dfy` (`Scenario`): the self-test scenario of the source's `__main__`
  block, on a 200 x 150 canvas with 3 x 4 cells.
- `pattern_loop.dfy` (`PatternLoop`): the same generator written as the source's
  nested loops over a `height x width x 4` array. It is proved to return exactly
  `GeneratePattern`'s buffer.

Colours and cell geometry are exact `real`s. The source guards the variation with
`rows > 1`, `cols > 1` and `rows + cols > 2`, and divides by `max(1, rows - 1)` and so on.
`Vary` takes the axis's last position `span` (`rows - 1`, `cols - 1`,
`rows + cols - 2`) and tests `span > 0`, which is the same condition. The
`max(1, span)` is kept in its body.

In `poc_generative_art.py:29-31`, Python's conditional expression binds more loosely
than `+` and sits inside `min(1.0, ...)`. The single-row (single-column, single-cell)
value `rect_base_r` is therefore clamped too. `CellColor`, `SingleCellColor` and
`PatternLoop.CellShade` state the clamped value.

## Model

| member | source | states |
|---|---|---|
| Params.ResolveDefaults | poc_generative_art.py:9-13 | an empty parameter dictionary gives 5 rows, 5 columns, background (0.1, 0.1, 0.1), base (0.2, 0.5, 0.8) and variation 0.3 |
| Params.ResolveSupply | poc_generative_art.py:9-13 | a dictionary that sets every key is used unchanged: no default overrides a supplied value |
| Params.ResolveKeys | poc_generative_art.py:9-13 | each key on its own: a supplied value is used as given, a missing key takes its own default (5, 5, (0.1, 0.1, 0.1), (0.2, 0.5, 0.8), 0.3) |
| Color.Clamp01 | poc_generative_art.py:29-31 | the result lies in [0,1], equals the input inside [0,1], and is 0 below and 1 above |
| Color.Clamp01Monotone | poc_generative_art.py:29-31 | clamping preserves order |
| Color.Vary | poc_generative_art.py:29-31 | a varied channel lies in [0,1]; on a one-position axis it is the clamped base, otherwise the clamped base plus (idx/span - 0.5)·factor, with the max(1, ·) guard gone |
| Color.CellColor | poc_generative_art.py:29-31 | every channel lies in [0,1]; red is clamp01(baseR + (r/(rows-1) - 0.5)·vary) for rows > 1 and clamp01(baseR) for rows = 1; green does the same with c and cols; blue with r+c and rows+cols-2 |
| Color.ChannelCoupling | poc_generative_art.py:29-31 | red depends only on the row, green only on the column, blue only on row + column |
| Color.VaryMonotone | poc_generative_art.py:29-31 | with a non-negative factor a varied channel never decreases along its axis |
| Color.CellColorMonotone | poc_generative_art.py:29-31 | with a non-negative factor red grows down the rows, green across the columns, blue along the diagonal |
| Geometry.Trunc | poc_generative_art.py:33-36 | int() truncates toward zero: for x >= 0 the result n satisfies n <= x < n+1; for x < 0 it satisfies x <= n < x+1 and n <= 0 |
| Geometry.Clip | poc_generative_art.py:38-41 | np.clip returns the point of [lo, hi] nearest to v: v itself inside, lo below, hi above |
| Geometry.AxisSpan | poc_generative_art.py:33-41 | both clipped edges of a cell's span lie in [0, extent] |
| Geometry.CellSizeFacts | poc_generative_art.py:22-23 | `extent / n` cells tile the extent exactly (n · size = extent); the size is non-negative, positive for a non-empty extent and at least 10 when the extent allows ten units per cell |
| Geometry.EdgeInset | poc_generative_art.py:22-36 | the padding of a tenth per side: a rectangle spans four fifths of its cell, neighbouring rectangles are a fifth of a cell apart, consecutive start edges one cell size apart |
| Geometry.CellRect | poc_generative_art.py:33-41 | the rectangle of cell (r, c) lies on the canvas: its x edges in [0, width], its y edges in [0, height] |
| Geometry.EdgesInside | poc_generative_art.py:22-36 | for a cell of the grid, 0 <= start edge <= end edge <= extent, before truncation |
| Geometry.ClipIsNoOp | poc_generative_art.py:33-41 | for a cell of the grid the clip changes nothing: the span is the truncated inset edges |
| Geometry.SpansOrdered | poc_generative_art.py:33-36 | a cell's span ends at or before any later cell's span starts |
| Geometry.SpansDisjoint | poc_generative_art.py:33-36 | a pixel position lies in the span of at most one cell |
| Geometry.RectsDisjoint | poc_generative_art.py:33-47 | two cells whose rectangles share a pixel are the same cell, so painting order cannot matter |
| Geometry.GridLineUncovered | poc_generative_art.py:22-36 | with cells at least ten pixels across, the pixel on each grid line is on the canvas and in no cell's span |
| Raster.Solid | poc_generative_art.py:15-20 | the initial image has height rows of width pixels, all equal to the fill pixel |
| Raster.Fill | poc_generative_art.py:44-47 | a slice assignment overwrites exactly the pixels inside the rectangle and keeps every other pixel and the image's shape |
| Raster.FlattenRowLayout | poc_generative_art.py:49 | a flattened row has 4 values per pixel, channel k of pixel x at 4x + k |
| Raster.FlattenLength | poc_generative_art.py:49 | a flattened width x height image has width·height·4 values |
| Raster.FlattenAt | poc_generative_art.py:49 | channel k of pixel (x, y) sits at (y·width + x)·4 + k of the flattened image |
| Raster.FlattenLayout | poc_generative_art.py:49 | the flattened image has width·height·4 values, with channel k of pixel (x, y) at (y·width + x)·4 + k, for all pixels |
| Raster.FlatIndex | poc_generative_art.py:49 | every buffer position is channel i % 4 of exactly one pixel of the canvas |
| Raster.FlattenAppend | poc_generative_art.py:49 | flattening distributes over stacking rows |
| Raster.FlatPosInjective | poc_generative_art.py:49 | distinct (pixel, channel) triples of the canvas land on distinct buffer positions |
| Pattern.DrawCell | poc_generative_art.py:43-47 | painting one cell sets exactly the pixels of its rectangle to the cell colour and leaves the rest |
| Pattern.BackgroundPixel | poc_generative_art.py:17-20 | the starting pixel is opaque and carries the background colour; it lies in [0,1] exactly when the background colour does |
| Pattern.CellPixel | poc_generative_art.py:29-47 | the pixel a rectangle is painted with is opaque and every channel lies in [0,1] |
| Pattern.CellPixelColor | poc_generative_art.py:29-47 | the red, green and blue of the painted pixel are the cell colour of its grid position |
| Pattern.DrawRowsHit | poc_generative_art.py:27-47 | once a cell's row is painted, its pixels hold its colour, and no later cell paints over them |
| Pattern.DrawRowHit | poc_generative_art.py:28-47 | once the columns of a row are painted past column c, a pixel inside cell (r, c)'s rectangle holds that cell's colour |
| Pattern.DrawRowMiss | poc_generative_art.py:28-47 | a pixel that no painted cell of the row covers keeps its previous value |
| Pattern.DrawRowsMiss | poc_generative_art.py:27-47 | a pixel no painted cell covers keeps its previous value |
| Pattern.GeneratePattern | poc_generative_art.py:4-49 | the returned buffer has exactly width·height·4 values |
| Pattern.RenderInCell | poc_generative_art.py:27-47 | a pixel inside a cell's rectangle has that cell's colour with alpha 1 |
| Pattern.RenderOutsideCells | poc_generative_art.py:17-47 | a pixel outside every cell's rectangle keeps the background colour with alpha 1 |
| Pattern.RenderPixel | poc_generative_art.py:17-47 | every pixel is opaque; it is the background or the colour of a cell whose rectangle contains it; it lies in [0,1] when the background does |
| Pattern.RenderCharacterization | poc_generative_art.py:15-47 | the whole image at once: every pixel inside a cell's rectangle has that cell's colour, every pixel outside all rectangles the background |
| Pattern.PatternLayout | poc_generative_art.py:15-49 | position (y·width + x)·4 + k of the buffer is channel k of pixel (x, y) |
| Pattern.PatternPixel | poc_generative_art.py:15-49 | the four values from (y·width + x)·4 on are R, G, B, A of pixel (x, y) |
| Pattern.PatternChannels | poc_generative_art.py:17-49 | every alpha value (positions ≡ 3 mod 4) is 1; every value lies in [0,1] when the background colour does |
| Pattern.PatternInCell | poc_generative_art.py:27-49 | in the buffer, a pixel inside a cell's rectangle carries that cell's colour and alpha 1 |
| Pattern.PatternOutsideCells | poc_generative_art.py:17-49 | in the buffer, a pixel outside every rectangle carries the background colour and alpha 1 |
| Pattern.VerticalGutter | poc_generative_art.py:22-47 | with cells at least ten pixels wide, each vertical grid line is on the canvas and is background from top to bottom |
| Pattern.HorizontalGutter | poc_generative_art.py:22-47 | with cells at least ten pixels tall, each horizontal grid line is on the canvas and is background from left to right |
| Pattern.SingleCellColor | poc_generative_art.py:29-31 | with one row and one column, the rectangle is painted in the clamped base colour |
| Pattern.OnePixelCanvas | poc_generative_art.py:22-49 | a 1 x 1 canvas with one cell: the inset rectangle truncates to nothing, and the buffer is the background pixel with alpha 1 |
| Scenario.ScenarioLength | poc_generative_art.py:52-67 | the self-test buffer has 200·150·4 = 120000 values |
| Scenario.ScenarioFirstRect | poc_generative_art.py:22-41 | in the self-test, cell (0, 0) covers pixels 5 to 44 on both axes |
| Scenario.ScenarioFirstCellColor | poc_generative_art.py:52-60 | in the self-test, cell (0, 0) is coloured (0.35, 0, 0); green and blue are clamped up from -0.15 |
| Scenario.ScenarioCorner | poc_generative_art.py:52-63 | in the self-test, pixel (0, 0) is background: the buffer starts 0.1, 0.1, 0.1, 1.0 |
| Scenario.ScenarioFirstCellPixel | poc_generative_art.py:52-63 | in the self-test, pixel (5, 5) holds 0.35, 0, 0, 1.0 at buffer positions 4020 to 4023 |
| Scenario.ScenarioBuffer | poc_generative_art.py:52-63 | the self-test buffer on its own terms: it starts 0.1, 0.1, 0.1, 1.0 and holds 0.35, 0, 0, 1.0 at positions 4020 to 4023 |
| PatternLoop.PaintRect | poc_generative_art.py:43-47 | the nested loop over a rectangle leaves the array equal to the filled image |
| PatternLoop.AxisExtent | poc_generative_art.py:22-41 | the step-by-step span (cell size, padding, int(), np.clip) lies in [0, extent] on both ends; for a cell of the grid the clip is a no-op, so the span is exactly the truncated inset edges; it agrees with the model's span |
| PatternLoop.CellExtent | poc_generative_art.py:33-41 | both axes of the step-by-step rectangle lie on the canvas; for a cell of the grid each axis is exactly its truncated inset edges, unclipped; it agrees with the model's rectangle |
| PatternLoop.ShadeChannel | poc_generative_art.py:29-31 | a channel computed with the source's guard, `max(1, ...)` divisor and `max(0.0, min(1.0, ...))` lies in [0,1]; under the guard it is clamp01(base + (idx/last - 0.5)·factor), so the `max(1, ...)` never changes the divisor; without it, clamp01(base) |
| PatternLoop.CellShade | poc_generative_art.py:29-31 | the colour computed as the loop body does is opaque with channels in [0,1]; red is clamp01(baseR + (r/(rows-1) - 0.5)·vary) when rows > 1 and clamp01(baseR) otherwise; green likewise with c and cols; blue with r+c and rows+cols-2 |
| PatternLoop.PaintRow | poc_generative_art.py:28-47 | the inner loop over the columns of a row leaves the array equal to the image with that row painted |
| PatternLoop.PaintCells | poc_generative_art.py:27-47 | the outer loop over the rows, each row painted by the inner loop, leaves the array equal to the rendered image |
| PatternLoop.ReadOut | poc_generative_art.py:49 | reading the array row by row, pixel by pixel gives the flattened image |
| PatternLoop.GeneratePatternLoop | poc_generative_art.py:4-49 | the loop version returns exactly the buffer the functional model describes |

## Left out

- `poc_gui_app.py`: the Dear PyGui windows, sliders, colour pickers, texture upload and
  event loop. Its only logic is callback glue: the /255 rescale of the colour pickers
  and the size check before upload.
- Floating-point representation: colours and cell geometry are exact rationals. The
  float64 rounding of `cell_width * 0.1` and friends is not modelled. Neither is the
  float32 storage of the buffer. A truncated edge that float rounding would move
  across an integer is therefore not modelled.
- The PIL image save and the progress prints of the `__main__` block (file I/O and an
  optional import). The length check it prints is `Scenario.ScenarioLength`.
- `rows < 1`, `cols < 1` and negative canvas sizes, which `Params.Valid` excludes as
  preconditions. In the source, `rows == 0` or `cols == 0` raises `ZeroDivisionError`
  at lines 22-23. A negative `rows` with `cols >= 1` (or the reverse) gives a negative
  cell size and an empty `range` at line 27 (or 28), so the background buffer is
  returned unpainted. A negative width or height makes `np.zeros` at line 15 raise
  `ValueError`. Every caller in the repository passes `rows, cols >= 1`: the GUI
  sliders have `min_value=1` (`poc_gui_app.py:102-107`), and the self-test uses 3 and 4.
  A 0-pixel canvas is allowed and gives an empty buffer.
- Dictionary entries of the wrong shape or type: a colour tuple without three
  elements, or non-integer `rows`/`cols`. Python raises on these. `Settings` types
  every entry. Keys the generator does not read, such as the `width` and `height`
  keys the GUI puts in the dictionary, have no counterpart.
- NumPy internals: slicing and `np.clip` are modelled by their meaning, a
  rectangular overwrite and an integer clamp. `flatten()` is modelled as row-major
  read-out.
- Clamping of the background colour: the source copies it as given and never clamps
  it. The [0,1] bound on every buffer value (`Pattern.PatternChannels`) therefore
  assumes a background colour in [0,1].
