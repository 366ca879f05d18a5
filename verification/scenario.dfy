/** The self-test scenario of the generator: a 200 by 150 canvas, a grid of
    3 rows and 4 columns, background (0.1, 0.1, 0.1), base colour
    (0.7, 0.2, 0.2) and variation factor 0.7. */
module Scenario {
  import opened Params
  import opened Color
  import opened Geometry
  import opened Raster
  import opened Pattern

  const Width: nat := 200
  const Height: nat := 150

  const TestSettings: Settings :=
    Settings(Some(3), Some(4), Some(Rgb(0.1, 0.1, 0.1)), Some(Rgb(0.7, 0.2, 0.2)), Some(0.7))

  /** The self-test's length check: 200 * 150 * 4 values. */
  lemma ScenarioLength()
    ensures |GeneratePattern(Width, Height, TestSettings)| == 120000
  {
  }

  /** Cell (0, 0) spans pixels 5 to 44 on both axes: cells are 50 pixels
      wide and tall, the padding is 5 pixels. */
  lemma ScenarioFirstRect()
    ensures RectOf(Width, Height, Resolve(TestSettings), 0, 0) == Rect(Span(5, 45), Span(5, 45))
  {
    assert CellSize(Width, 4) == 50.0;
    assert CellSize(Height, 3) == 50.0;
  }

  /** Cell (0, 0) is coloured (0.35, 0, 0): red is 0.7 - 0.35, green and
      blue are 0.2 - 0.35 clamped up to 0. */
  lemma ScenarioFirstCellColor()
    ensures CellColor(Resolve(TestSettings), 0, 0) == Rgb(0.35, 0.0, 0.0)
  {
  }

  /** Pixel (0, 0) lies in the top-left gutter and keeps the background.
      The canvas size and settings are passed as parameters equal to the
      self-test's values, so that the verifier reasons about the buffer
      symbolically instead of expanding it. */
  lemma ScenarioCorner(width: nat, height: nat, s: Settings)
    requires width == Width && height == Height && s == TestSettings
    ensures GeneratePattern(width, height, s)[0..4] == [0.1, 0.1, 0.1, 1.0]
  {
    var p := Resolve(s);
    assert GridLine(width, p.cols, 0) == 0;
    VerticalGutter(width, height, p, 0, 0);
    PatternPixel(width, height, s, 0, 0);
    assert FlatPos(width, height, 0, 0, 0) == 0;
  }

  /** Pixel (5, 5), the first pixel of cell (0, 0)'s rectangle, holds
      (0.35, 0, 0, 1) at positions 4020 to 4023 of the buffer. */
  lemma ScenarioFirstCellPixel(width: nat, height: nat, s: Settings)
    requires width == Width && height == Height && s == TestSettings
    ensures GeneratePattern(width, height, s)[4020..4024] == [0.35, 0.0, 0.0, 1.0]
  {
    var p := Resolve(s);
    ScenarioFirstRect();
    ScenarioFirstCellColor();
    RenderInCell(width, height, p, 0, 0, 5, 5);
    PatternPixel(width, height, s, 5, 5);
    assert FlatPos(width, height, 5, 5, 0) == 4020;
  }

  /** The self-test buffer as a plain example: it starts with the
      background pixel and holds cell (0, 0)'s colour at 4020 to 4023. */
  lemma ScenarioBuffer()
    ensures GeneratePattern(Width, Height, TestSettings)[0..4] == [0.1, 0.1, 0.1, 1.0]
    ensures GeneratePattern(Width, Height, TestSettings)[4020..4024] == [0.35, 0.0, 0.0, 1.0]
  {
    ScenarioCorner(Width, Height, TestSettings);
    ScenarioFirstCellPixel(Width, Height, TestSettings);
  }
}
