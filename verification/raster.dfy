/** A height-by-width grid of RGBA pixels, the rectangular overwrite the
    generator paints with, and the row-major flattening it returns. */
module Raster {
  import opened Geometry

  /** One pixel: red, green, blue and alpha. */
  datatype Rgba = Rgba(r: real, g: real, b: real, a: real) {

    /** Every channel lies in [0,1]. */
    predicate InUnitRange() {
      0.0 <= r <= 1.0 && 0.0 <= g <= 1.0 && 0.0 <= b <= 1.0 && 0.0 <= a <= 1.0
    }

    /** The four channels in buffer order R, G, B, A. */
    function Channels(): seq<real> {
      [r, g, b, a]
    }
  }

  /** Channel `k` of a pixel: 0 red, 1 green, 2 blue, 3 alpha. */
  function Channel(px: Rgba, k: int): real
    requires 0 <= k < 4
  {
    px.Channels()[k]
  }

  /** An image as a sequence of rows, top to bottom, each row a sequence of
      pixels, left to right: pixel (x, y) is `img[y][x]`. */
  type Image = seq<seq<Rgba>>

  /** The image has `height` rows of `width` pixels each. */
  predicate Shaped(img: Image, width: int, height: int) {
    |img| == height && forall y :: 0 <= y < |img| ==> |img[y]| == width
  }

  /** A `width` by `height` image with every pixel equal to `px`. */
  function Solid(width: nat, height: nat, px: Rgba): (img: Image)
    ensures Shaped(img, width, height)
    ensures forall y, x :: 0 <= y < height && 0 <= x < width ==> img[y][x] == px
  {
    seq(height, _ => seq(width, _ => px))
  }

  /** Paints every pixel of `rect` with `px`; every other pixel is kept. */
  function Fill(img: Image, rect: Rect, px: Rgba): (out: Image)
    ensures |out| == |img|
    ensures forall y :: 0 <= y < |img| ==> |out[y]| == |img[y]|
    ensures forall y, x :: 0 <= y < |img| && 0 <= x < |img[y]| ==>
              out[y][x] == (if rect.Contains(x, y) then px else img[y][x])
  {
    seq(|img|, y requires 0 <= y < |img| =>
      seq(|img[y]|, x requires 0 <= x < |img[y]| =>
        if rect.Contains(x, y) then px else img[y][x]))
  }

  /** The channels of a row of pixels, pixel after pixel. */
  function FlattenRow(row: seq<Rgba>): seq<real> {
    if |row| == 0 then [] else row[0].Channels() + FlattenRow(row[1..])
  }

  /** The channels of an image, row after row. */
  function Flatten(img: Image): seq<real> {
    if |img| == 0 then [] else FlattenRow(img[0]) + Flatten(img[1..])
  }

  /** A flattened row holds four values per pixel, channel `k` of pixel `x`
      at position `4 * x + k`. */
  lemma {:induction false} FlattenRowLayout(row: seq<Rgba>)
    ensures |FlattenRow(row)| == 4 * |row|
    ensures forall x, k :: 0 <= x < |row| && 0 <= k < 4 ==>
              FlattenRow(row)[4 * x + k] == Channel(row[x], k)
  {
    if |row| > 0 {
      FlattenRowLayout(row[1..]);
      forall x, k | 0 <= x < |row| && 0 <= k < 4
        ensures FlattenRow(row)[4 * x + k] == Channel(row[x], k)
      {
        if x > 0 {
          assert FlattenRow(row)[4 * x + k] == FlattenRow(row[1..])[4 * (x - 1) + k];
        }
      }
    }
  }

  /** A flattened `width` by `height` image holds `width * height * 4` values. */
  lemma {:induction false} FlattenLength(img: Image, width: nat, height: nat)
    requires Shaped(img, width, height)
    ensures |Flatten(img)| == width * height * 4
  {
    if height > 0 {
      FlattenRowLayout(img[0]);
      FlattenLength(img[1..], width, height - 1);
      PeelRow(width, height);
    }
  }

  /** The position of channel `k` of pixel (x, y) in a row-major,
      channel-interleaved buffer of a `width` by `height` image. */
  function FlatPos(width: nat, height: nat, y: int, x: int, k: int): (i: nat)
    requires 0 <= y < height && 0 <= x < width && 0 <= k < 4
    ensures i < width * height * 4
  {
    assert y * width + x < height * width by { Grow(y + 1, height, width); }
    (y * width + x) * 4 + k
  }

  /** Channel `k` of pixel (x, y) sits at position `(y * width + x) * 4 + k`
      of the flattened image. */
  lemma FlattenAt(img: Image, width: nat, height: nat, y: int, x: int, k: int)
    requires Shaped(img, width, height)
    requires 0 <= y < height && 0 <= x < width && 0 <= k < 4
    ensures (y * width + x) * 4 + k < |Flatten(img)|
    ensures Flatten(img)[(y * width + x) * 4 + k] == Channel(img[y][x], k)
  {
    var before, after := img[..y], img[y + 1..];
    assert img == before + [img[y]] + after;
    FlattenAppend(before + [img[y]], after);
    FlattenAppend(before, [img[y]]);
    FlattenSingle(img[y]);
    FlattenLength(before, width, y);
    FlattenRowLayout(img[y]);
    RowMajor(y, x, k, width);
  }

  /** A one-row image flattens to that row. */
  lemma FlattenSingle(row: seq<Rgba>)
    ensures Flatten([row]) == FlattenRow(row)
  {
    assert [row][1..] == [];
  }

  /** Both facts for every pixel: the buffer is row-major with the four
      channels of a pixel interleaved. */
  lemma FlattenLayout(img: Image, width: nat, height: nat)
    requires Shaped(img, width, height)
    ensures |Flatten(img)| == width * height * 4
    ensures forall y, x, k :: 0 <= y < height && 0 <= x < width && 0 <= k < 4 ==>
              Flatten(img)[FlatPos(width, height, y, x, k)] == Channel(img[y][x], k)
  {
    FlattenLength(img, width, height);
    forall y, x, k | 0 <= y < height && 0 <= x < width && 0 <= k < 4
      ensures Flatten(img)[FlatPos(width, height, y, x, k)] == Channel(img[y][x], k)
    {
      FlattenAt(img, width, height, y, x, k);
    }
  }

  lemma PeelRow(width: int, height: int)
    ensures 4 * width + width * (height - 1) * 4 == width * height * 4
  {
  }

  lemma RowMajor(y: int, x: int, k: int, width: int)
    ensures (y * width + x) * 4 + k == width * y * 4 + (4 * x + k)
  {
  }

  /** Every position of a flattened `width` by `height` buffer is channel
      `i % 4` of the pixel numbered `i / 4` in row-major order. */
  lemma FlatIndex(i: int, width: nat, height: nat) returns (y: int, x: int, k: int)
    requires 0 <= i < width * height * 4
    ensures 0 <= y < height && 0 <= x < width && 0 <= k < 4
    ensures i == FlatPos(width, height, y, x, k)
    ensures k == i % 4
    ensures forall y', x', k' ::
      0 <= y' < height && 0 <= x' < width && 0 <= k' < 4 && FlatPos(width, height, y', x', k') == i
      ==> y' == y && x' == x && k' == k
  {
    k := i % 4;
    var q := i / 4;
    assert q < width * height;
    y, x := RowColumn(q, width, height);
    assert i == q * 4 + k;
    forall y', x', k' |
      0 <= y' < height && 0 <= x' < width && 0 <= k' < 4 && FlatPos(width, height, y', x', k') == i
      ensures y' == y && x' == x && k' == k
    {
      FlatPosInjective(width, height, y', x', k', y, x, k);
    }
  }

  /** Pixel number `q` of a row-major `width` by `height` canvas is pixel
      (q % width, q / width). */
  lemma RowColumn(q: int, width: nat, height: nat) returns (y: int, x: int)
    requires 0 <= q < width * height
    ensures 0 <= y < height && 0 <= x < width
    ensures q == y * width + x
  {
    assert width > 0;
    y := q / width;
    x := q % width;
    if y >= height {
      assert y * width >= height * width by { Grow(height, y, width); }
      assert false;
    }
  }

  /** Distinct (pixel, channel) triples land on distinct buffer positions. */
  lemma FlatPosInjective(width: nat, height: nat, y: int, x: int, k: int, y': int, x': int, k': int)
    requires 0 <= y < height && 0 <= x < width && 0 <= k < 4
    requires 0 <= y' < height && 0 <= x' < width && 0 <= k' < 4
    requires FlatPos(width, height, y, x, k) == FlatPos(width, height, y', x', k')
    ensures y == y' && x == x' && k == k'
  {
    var q, q' := y * width + x, y' * width + x';
    assert q * 4 + k == q' * 4 + k';
    assert k == k' && q == q';
    if y < y' {
      assert (y + 1) * width == y * width + width;
      Grow(y + 1, y', width);
      assert false;
    } else if y' < y {
      assert (y' + 1) * width == y' * width + width;
      Grow(y' + 1, y, width);
      assert false;
    }
  }

  lemma Grow(a: int, b: int, w: nat)
    requires a <= b
    ensures a * w <= b * w
  {
    assert b * w - a * w == (b - a) * w;
  }

  /** Flattening a row distributes over concatenation. */
  lemma {:induction false} FlattenRowAppend(a: seq<Rgba>, b: seq<Rgba>)
    ensures FlattenRow(a + b) == FlattenRow(a) + FlattenRow(b)
  {
    if |a| > 0 {
      assert (a + b)[1..] == a[1..] + b;
      FlattenRowAppend(a[1..], b);
    } else {
      assert a + b == b;
    }
  }

  /** Flattening an image distributes over concatenation of rows. */
  lemma {:induction false} FlattenAppend(a: Image, b: Image)
    ensures Flatten(a + b) == Flatten(a) + Flatten(b)
  {
    if |a| > 0 {
      assert (a + b)[1..] == a[1..] + b;
      FlattenAppend(a[1..], b);
    } else {
      assert a + b == b;
    }
  }
}
