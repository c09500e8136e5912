/** Geodetic conversion and the tile arithmetic of the GSI tile pyramid.

    At zoom level `level` the world is `2^(level+8)` pixels wide and is cut
    into tiles of 256 x 256 pixels. A continuous pixel coordinate is split
    into the index of the tile that holds it and a pixel offset inside that
    tile. Floating point is modelled by `real`; Python's `int()` (which
    truncates towards zero) and its float `%` (whose result has the sign of
    the divisor) are written out. */
module Projection {

  /** Side of a tile, in pixels. */
  const TileSize: int := 256

  /** 2^n. */
  function Pow2(n: nat): (r: nat)
    ensures r >= 1
  {
    if n == 0 then 1 else 2 * Pow2(n - 1)
  }

  lemma {:induction false} Pow2Add(m: nat, n: nat)
    ensures Pow2(m + n) == Pow2(m) * Pow2(n)
    decreases n
  {
    if n > 0 {
      Pow2Add(m, n - 1);
      assert Pow2(m + n) == 2 * Pow2(m + n - 1);
      assert Pow2(n) == 2 * Pow2(n - 1);
    }
  }

  /** Python's `int(v)` on a float: truncation towards zero. */
  function Trunc(v: real): (t: int)
    ensures v >= 0.0 ==> t == v.Floor
    ensures v < 0.0 ==> t as real - 1.0 < v <= t as real
  {
    if v >= 0.0 then v.Floor else -((-v).Floor)
  }

  lemma TruncMonotone(u: real, v: real)
    requires u <= v
    ensures Trunc(u) <= Trunc(v)
  {
    if u < 0.0 && v < 0.0 {
      assert -v <= -u;
      assert (-v).Floor <= (-u).Floor;
    }
  }

  /** Python's `v % 256.0` on floats: the result lies in [0, 256) and
      differs from `v` by a whole number of tiles. */
  function FloatMod256(v: real): (r: real)
    ensures 0.0 <= r < 256.0
    ensures v - r == ((v - r) / 256.0).Floor as real * 256.0
  {
    var q := (v / 256.0).Floor;
    assert (v - (v - q as real * 256.0)) / 256.0 == q as real;
    v - q as real * 256.0
  }

  /** Rounding half up, the effect of adding 0.5 and then truncating a
      non-negative value. */
  function RoundHalfUp(v: real): int
  {
    (v + 0.5).Floor
  }

  /** A tile index and the pixel offset inside that tile (the "margin"). */
  datatype TilePos = TilePos(tile: int, rem: int)

  /** The tile/remainder step shared by the longitude and latitude
      conversions: `(int(p / 256), int(p % 256 + 0.5))`.

      For a non-negative coordinate the tile index is the floor of `p / 256`
      and the remainder is the rounded coordinate measured from that tile's
      left (top) edge. Because of the rounding, the remainder is 256 rather
      than 255 when `p` lies in the last half pixel of a tile. */
  function TileStep(p: real): (t: TilePos)
    ensures 0 <= t.rem <= TileSize
    ensures t.rem == TileSize <==> FloatMod256(p) >= 255.5
    ensures p >= 0.0 ==> (t.tile * TileSize) as real <= p < (t.tile * TileSize + TileSize) as real
    ensures p >= 0.0 ==> t.rem == RoundHalfUp(p) - t.tile * TileSize
  {
    var tx := p / 256.0;
    var rx := FloatMod256(p) + 0.5;
    var r := TilePos(Trunc(tx), Trunc(rx));
    assert p >= 0.0 ==> RoundHalfUp(p) - r.tile * TileSize == r.rem by {
      if p >= 0.0 {
        var q := (p / 256.0).Floor;
        assert r.tile == q;
        assert FloatMod256(p) == p - q as real * 256.0;
        FloorShift(p + 0.5, -q * 256);
      }
    }
    r
  }

  /** Adding a whole number commutes with taking the floor. */
  lemma FloorShift(v: real, k: int)
    ensures (v + k as real).Floor == v.Floor + k
  {
    var f := v.Floor;
    assert f as real <= v < f as real + 1.0;
    assert (f + k) as real <= v + k as real < (f + k) as real + 1.0;
  }

  /** A negative coordinate (west of longitude -180, or north of the clamp
      latitude) that is not a multiple of 256 gets a tile index one too
      high: the pixel lies left of (above) the tile the step reports, so
      the tile and the remainder do not describe the same pixel. At a
      negative multiple of 256 the pair is still right. */
  lemma NegativeCoordinateMispairs(p: real)
    requires p < 0.0
    ensures (TileStep(p).tile * TileSize) as real >= p
    ensures (TileStep(p).tile * TileSize) as real == p <==> p / 256.0 == (p / 256.0).Floor as real
    ensures p / 256.0 != (p / 256.0).Floor as real ==> TileStep(p).tile == (p / 256.0).Floor + 1
  {
    var t := TileStep(p).tile;
    assert t == Trunc(p / 256.0);
    assert p / 256.0 <= t as real;
    if p / 256.0 == (p / 256.0).Floor as real {
      assert t == (p / 256.0).Floor;
    }
  }

  /** Pixel -10 lies 246 pixels into tile -1, but the step reports tile 0
      with margin 246; pixel -256 gets tile -1 with margin 0, which is
      right. */
  lemma NegativeCoordinateExamples()
    ensures TileStep(-10.0) == TilePos(0, 246)
    ensures TileStep(-256.0) == TilePos(-1, 0)
  {
    assert FloatMod256(-10.0) == 246.0 by {
      assert (-10.0 / 256.0).Floor == -1;
    }
    assert FloatMod256(-256.0) == 0.0 by {
      assert (-256.0 / 256.0).Floor == -1;
    }
  }

  /** A coordinate written as decimal degrees or as degrees, minutes and
      seconds. */
  datatype Angle = Decimal(deg: real) | Dms(d: real, m: real, s: real)

  /** `convertDeg`: degrees + minutes / 60 + seconds / 3600. */
  function ConvertDeg(d: real, m: real, s: real): (deg: real)
    ensures m >= 0.0 && s >= 0.0 ==> deg >= d
  {
    d + m / 60.0 + s / 3600.0
  }

  /** The dispatch in the constructor: a list is converted, a number is
      taken as decimal degrees. An angle written with non-negative minutes
      and seconds is never below its whole degrees; `ToDms` gives, for every
      decimal angle, a list that converts back to it. */
  function Degrees(a: Angle): (deg: real)
    ensures a.Decimal? ==> deg == a.deg
    ensures a.Dms? && a.m >= 0.0 && a.s >= 0.0 ==> deg >= a.d
    ensures a.Dms? && 0.0 <= a.m && 0.0 <= a.s && a.m + a.s / 60.0 < 60.0 ==> deg < a.d + 1.0
  {
    match a
    case Decimal(deg) => deg
    case Dms(d, m, s) => ConvertDeg(d, m, s)
  }

  /** Splits decimal degrees into whole degrees, whole minutes and seconds;
      the inverse of `ConvertDeg`. */
  function ToDms(deg: real): (a: Angle)
    ensures a.Dms? && a.d == deg.Floor as real
    ensures 0.0 <= a.m < 60.0 && a.m == a.m.Floor as real && 0.0 <= a.s < 60.0
    ensures Degrees(a) == deg
  {
    var d := deg.Floor as real;
    var minutes := (deg - d) * 60.0;
    var m := minutes.Floor as real;
    Dms(d, m, (minutes - m) * 60.0)
  }

  /** Continuous pixel x of a longitude: `2^(level+7) * (deg / 180 + 1)`.
      The pixel is the share of the way east from longitude -180, out of
      the full circle, times the width `2^(level+8)` of the pyramid. */
  function LongitudePixel(level: nat, deg: real): (x: real)
    ensures x == (deg + 180.0) / 360.0 * Pow2(level + 8) as real
  {
    assert Pow2(level + 8) == 2 * Pow2(level + 7);
    Pow2(level + 7) as real * (deg / 180.0 + 1.0)
  }

  /** `calcLongitudeTileNum`: the tile column of a longitude and the margin
      inside it. East of -180 the column is the one holding the pixel x;
      within [-180, 180] it reaches `2^level`, one past the last column,
      exactly at longitude 180. */
  function LongitudeTileNum(level: nat, deg: real): (t: TilePos)
    ensures deg >= -180.0 ==> (t.tile * TileSize) as real <= LongitudePixel(level, deg) < (t.tile * TileSize + TileSize) as real
    ensures -180.0 <= deg <= 180.0 ==> (t.tile == Pow2(level) <==> deg == 180.0)
  {
    var x := LongitudePixel(level, deg);
    var t := TileStep(x);
    if -180.0 <= deg then
      EastOfAntimeridian(level, deg);
      if deg <= 180.0 then LastColumnEdge(level, deg, t.tile); t else t
    else t
  }

  /** East of longitude -180 the pixel x is non-negative. */
  lemma EastOfAntimeridian(level: nat, deg: real)
    requires -180.0 <= deg
    ensures LongitudePixel(level, deg) >= 0.0
  {
    var f := (deg + 180.0) / 360.0;
    var p := Pow2(level + 8) as real;
    assert f >= 0.0 && p >= 1.0;
    assert f * p >= 0.0;
  }

  /** A column index reaches `2^level` only on the east edge of the
      pyramid, where the pixel x is `2^(level+8)`. */
  lemma LastColumnEdge(level: nat, deg: real, t: int)
    requires -180.0 <= deg <= 180.0
    requires (t * TileSize) as real <= LongitudePixel(level, deg) < (t * TileSize + TileSize) as real
    ensures t == Pow2(level) <==> deg == 180.0
  {
    Pow2Add(level, 8);
    assert Pow2(8) == 256;
    EastEdge(level, deg);
    ColumnOfEdge(LongitudePixel(level, deg), t, Pow2(level));
  }

  /** The pixel x reaches the width `2^(level+8)` exactly at longitude 180. */
  lemma EastEdge(level: nat, deg: real)
    requires -180.0 <= deg <= 180.0
    ensures LongitudePixel(level, deg) <= Pow2(level + 8) as real
    ensures LongitudePixel(level, deg) == Pow2(level + 8) as real <==> deg == 180.0
  {
    var f := (deg + 180.0) / 360.0;
    assert f <= 1.0 && (f == 1.0 <==> deg == 180.0);
    ScaleToWidth(f, Pow2(level + 8) as real);
  }

  lemma ScaleToWidth(f: real, p: real)
    requires f <= 1.0 && p > 0.0
    ensures f * p <= p && (f * p == p <==> f == 1.0)
  {
    if f < 1.0 {
      ScaleBelow(f, p);
    }
  }

  /** A pixel in [0, 256n] lies in column n exactly when it is 256n. */
  lemma ColumnOfEdge(x: real, t: int, n: int)
    requires x <= (n * TileSize) as real
    requires (t * TileSize) as real <= x < (t * TileSize + TileSize) as real
    ensures t == n <==> x == (n * TileSize) as real
  {
  }

  lemma ScaleBelow(f: real, p: real)
    requires f < 1.0 && p > 0.0
    ensures f * p < p
  {
  }

  /** Longitudes in [-180, 180] land in [0, 2^(level+8)]: the whole width
      of the pyramid and nothing outside it. */
  lemma LongitudePixelRange(level: nat, deg: real)
    requires -180.0 <= deg <= 180.0
    ensures 0.0 <= LongitudePixel(level, deg) <= Pow2(level + 8) as real
  {
    var p := Pow2(level + 7) as real;
    var f := deg / 180.0 + 1.0;
    assert 0.0 <= f <= 2.0;
    assert Pow2(level + 8) == 2 * Pow2(level + 7);
    assert p * f <= p * 2.0;
  }

  /** Hence every longitude in [-180, 180] falls in one of the `2^level`
      tile columns, or on the right edge of the last (exactly at 180). */
  lemma LongitudeTileRange(level: nat, deg: real)
    requires -180.0 <= deg <= 180.0
    ensures 0 <= LongitudeTileNum(level, deg).tile <= Pow2(level)
  {
    LongitudePixelRange(level, deg);
    Pow2Add(level, 8);
    assert Pow2(8) == 256;
    var x := LongitudePixel(level, deg);
    var t := LongitudeTileNum(level, deg).tile;
    assert (t * 256) as real <= x <= (Pow2(level) * 256) as real;
  }

  /** The x pixel, and with it the tile column, never decreases as the
      longitude grows. */
  lemma LongitudeTileMonotone(level: nat, deg1: real, deg2: real)
    requires deg1 <= deg2
    ensures LongitudePixel(level, deg1) <= LongitudePixel(level, deg2)
    ensures LongitudeTileNum(level, deg1).tile <= LongitudeTileNum(level, deg2).tile
  {
    var p := Pow2(level + 7) as real;
    var f1, f2 := deg1 / 180.0 + 1.0, deg2 / 180.0 + 1.0;
    assert f1 <= f2;
    assert p * f1 <= p * f2;
    var x1, x2 := LongitudePixel(level, deg1), LongitudePixel(level, deg2);
    assert x1 / 256.0 <= x2 / 256.0;
    TruncMonotone(x1 / 256.0, x2 / 256.0);
  }
}
