/** The parameter record of the pattern generator.

    The generator reads its parameters from a dictionary and falls back to a
    default for every key that is missing. `Settings` is that dictionary (one
    optional entry per key) and `Params` is the record after the defaults have
    been applied.
 */
module Params {

  /** An entry of the parameter dictionary: present or missing. */
  datatype Option<+T> = None | Some(value: T) {

    /** The entry's value, or `default` when the entry is missing. */
    function GetOr(default: T): T {
      match this
      case Some(v) => v
      case None => default
    }
  }

  /** A colour given by its red, green and blue channels. */
  datatype Rgb = Rgb(r: real, g: real, b: real) {

    /** Every channel lies in [0,1]. */
    predicate InUnitRange() {
      0.0 <= r <= 1.0 && 0.0 <= g <= 1.0 && 0.0 <= b <= 1.0
    }
  }

  /** The resolved parameters: grid size, background colour, base colour of
      the rectangles and the factor by which the rectangle colour varies. */
  datatype Params = Params(rows: int, cols: int, bg: Rgb, base: Rgb, vary: real)

  /** The parameter dictionary as the caller passes it; every key may be absent. */
  datatype Settings = Settings(
    rows: Option<int>,
    cols: Option<int>,
    bg: Option<Rgb>,
    base: Option<Rgb>,
    vary: Option<real>)

  const DefaultRows: int := 5
  const DefaultCols: int := 5
  const DefaultBg: Rgb := Rgb(0.1, 0.1, 0.1)
  const DefaultBase: Rgb := Rgb(0.2, 0.5, 0.8)
  const DefaultVary: real := 0.3

  /** The dictionary with no key set. */
  const NoSettings: Settings := Settings(None, None, None, None, None)

  /** Applies the defaults to every missing key. */
  function Resolve(s: Settings): Params {
    Params(
      s.rows.GetOr(DefaultRows),
      s.cols.GetOr(DefaultCols),
      s.bg.GetOr(DefaultBg),
      s.base.GetOr(DefaultBase),
      s.vary.GetOr(DefaultVary))
  }

  /** Each key independently: a supplied value is used as given, a missing
      key takes its own default. */
  lemma ResolveKeys(s: Settings)
    ensures s.rows.Some? ==> Resolve(s).rows == s.rows.value
    ensures s.rows.None? ==> Resolve(s).rows == DefaultRows
    ensures s.cols.Some? ==> Resolve(s).cols == s.cols.value
    ensures s.cols.None? ==> Resolve(s).cols == DefaultCols
    ensures s.bg.Some? ==> Resolve(s).bg == s.bg.value
    ensures s.bg.None? ==> Resolve(s).bg == DefaultBg
    ensures s.base.Some? ==> Resolve(s).base == s.base.value
    ensures s.base.None? ==> Resolve(s).base == DefaultBase
    ensures s.vary.Some? ==> Resolve(s).vary == s.vary.value
    ensures s.vary.None? ==> Resolve(s).vary == DefaultVary
  {
  }

  /** The dictionary that sets every key to the corresponding field of `p`. */
  function Supply(p: Params): Settings {
    Settings(Some(p.rows), Some(p.cols), Some(p.bg), Some(p.base), Some(p.vary))
  }

  /** An empty dictionary resolves to the documented defaults:
      a 5 by 5 grid, background (0.1, 0.1, 0.1), base colour (0.2, 0.5, 0.8)
      and variation factor 0.3. */
  lemma ResolveDefaults()
    ensures Resolve(NoSettings) == Params(5, 5, Rgb(0.1, 0.1, 0.1), Rgb(0.2, 0.5, 0.8), 0.3)
  {
  }

  /** A dictionary that sets every key is taken as it is: no default
      overrides a supplied value. */
  lemma ResolveSupply(p: Params)
    ensures Resolve(Supply(p)) == p
  {
  }

  /** The inputs the generator handles: at least one row and one column
      (the cell size divides by both), and a canvas of non-negative size. */
  predicate Valid(width: int, height: int, p: Params) {
    p.rows >= 1 && p.cols >= 1 && width >= 0 && height >= 0
  }
}
