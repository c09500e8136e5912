/** The rectangle of tiles that covers two corners: per-axis ordering of the
    corners' tile indices, the margins carried along with them, the canvas
    extent, the crop window, and the order in which the tiles are visited. */
module TileRange {
  import opened Projection

  /** One axis of the normalised rectangle: the lowest and highest tile
      index, each with the margin (pixel offset inside that tile) of the
      corner it came from. */
  datatype AxisRange = AxisRange(min: int, minR: int, max: int, maxR: int)

  /** The state the constructor leaves an axis in. */
  predicate Normalised(a: AxisRange)
  {
    a.min <= a.max && 0 <= a.minR <= TileSize && 0 <= a.maxR <= TileSize
  }

  /** The conditional swap of the constructor: corner 1 is the minimum
      unless its tile index is strictly greater than corner 2's, and each
      margin travels with its own tile index. On a tie nothing is swapped,
      so the margins then keep the corners' order. */
  function OrderAxis(c1: TilePos, c2: TilePos): (a: AxisRange)
    ensures a.min <= a.max
    ensures a.min == (if c1.tile <= c2.tile then c1.tile else c2.tile)
    ensures a.max == (if c1.tile <= c2.tile then c2.tile else c1.tile)
    ensures a == AxisRange(c1.tile, c1.rem, c2.tile, c2.rem) || a == AxisRange(c2.tile, c2.rem, c1.tile, c1.rem)
    ensures c1.tile == c2.tile ==> a.minR == c1.rem && a.maxR == c2.rem
  {
    if c1.tile > c2.tile then AxisRange(c2.tile, c2.rem, c1.tile, c1.rem)
    else AxisRange(c1.tile, c1.rem, c2.tile, c2.rem)
  }

  /** The tile bounds do not depend on the order the corners are given in.
      The whole axis does not either when the corners are in different
      tiles; when they share a tile it does exactly when their margins
      differ. */
  lemma OrderAxisSymmetric(c1: TilePos, c2: TilePos)
    ensures OrderAxis(c1, c2).min == OrderAxis(c2, c1).min
    ensures OrderAxis(c1, c2).max == OrderAxis(c2, c1).max
    ensures c1.tile != c2.tile ==> OrderAxis(c1, c2) == OrderAxis(c2, c1)
    ensures c1.tile == c2.tile ==> (OrderAxis(c1, c2) == OrderAxis(c2, c1) <==> c1.rem == c2.rem)
  {
  }

  /** Number of pixels the merged canvas spans on this axis. */
  function Extent(a: AxisRange): (e: int)
    ensures a.min <= a.max ==> e >= TileSize && e % TileSize == 0
    ensures a.min <= a.max ==> e / TileSize == a.max - a.min + 1
  {
    (a.max - a.min + 1) * TileSize
  }

  /** The crop interval on this axis, in canvas pixels: from the minimum
      corner's margin to the maximum corner's margin in the last tile.
      It lies inside the canvas, and it is not reversed (though it can be
      empty) whenever the two corners are in different tiles. */
  function CropSpan(a: AxisRange): (span: (int, int))
    ensures Normalised(a) ==> 0 <= span.0 <= TileSize && 0 <= span.1 <= Extent(a)
    ensures Normalised(a) && a.min < a.max ==> span.0 <= span.1
  {
    (a.minR, (a.max - a.min) * TileSize + a.maxR)
  }

  /** What the crop window means: for corners at non-negative pixel
      coordinates `p1` and `p2`, the window runs from the rounded western
      (northern) corner to the rounded eastern (southern) corner, measured
      from the canvas origin `min * 256`. This holds whenever the corners
      are in different tiles or are given in increasing order. When both
      are in one tile and given in decreasing order, the window runs from
      the rounded first corner to the rounded second one: reversed when
      they round to different pixels, empty when they round to the same. */
  lemma {:induction false} CropSpanFromCorners(p1: real, p2: real)
    requires p1 >= 0.0 && p2 >= 0.0
    ensures var t1, t2 := TileStep(p1), TileStep(p2);
            var a := OrderAxis(t1, t2);
            var origin := a.min * TileSize;
            && (p1 <= p2 ==> CropSpan(a) == (RoundHalfUp(p1) - origin, RoundHalfUp(p2) - origin))
            && (p2 < p1 && t1.tile != t2.tile ==> CropSpan(a) == (RoundHalfUp(p2) - origin, RoundHalfUp(p1) - origin))
            && (p2 < p1 && t1.tile == t2.tile ==> CropSpan(a) == (RoundHalfUp(p1) - origin, RoundHalfUp(p2) - origin))
  {
    var t1, t2 := TileStep(p1), TileStep(p2);
    if p1 <= p2 {
      TruncMonotone(p1 / 256.0, p2 / 256.0);
      assert t1.tile <= t2.tile;
    } else {
      TruncMonotone(p2 / 256.0, p1 / 256.0);
      assert t2.tile <= t1.tile;
    }
  }

  /** Two corners in the same tile, given east to west (or south to
      north), produce a reversed crop window. */
  lemma SameTileReversedWindow()
    ensures var a := OrderAxis(TileStep(200.0), TileStep(100.0));
            a.min == a.max == 0 && CropSpan(a) == (200, 100)
  {
    CropSpanFromCorners(200.0, 100.0);
  }

  /** Corners in neighbouring tiles can still give an empty crop window:
      pixel 255.7 rounds up to the right edge of tile 0 (margin 256), and
      pixel 256.2 rounds to the left edge of tile 1 (margin 0). */
  lemma CrossTileEmptyWindow()
    ensures var a := OrderAxis(TileStep(255.7), TileStep(256.2));
            a.min < a.max && Normalised(a) && CropSpan(a) == (256, 256)
  {
    CropSpanFromCorners(255.7, 256.2);
  }

  /** Two corners in the same tile, given in decreasing order but rounding
      to the same pixel, produce an empty crop window. */
  lemma SameTileEmptyWindow()
    ensures var a := OrderAxis(TileStep(100.4), TileStep(100.2));
            a.min == a.max == 0 && CropSpan(a) == (100, 100)
  {
    CropSpanFromCorners(100.4, 100.2);
  }

  /** The tiles of column `i` from row `y0` to row `y1`, top to bottom. */
  function Column(i: int, y0: int, y1: int): seq<(int, int)>
  {
    if y1 < y0 then [] else seq(y1 - y0 + 1, k => (i, y0 + k))
  }

  /** The tiles of the rectangle `[x0, x1] x [y0, y1]` in the order the
      download and merge loops visit them: column by column, and within a
      column row by row. */
  function TileOrder(x0: int, x1: int, y0: int, y1: int): seq<(int, int)>
    decreases if x1 < x0 then 0 else x1 - x0 + 1
  {
    if x1 < x0 then [] else TileOrder(x0, x1 - 1, y0, y1) + Column(x1, y0, y1)
  }

  /** Strict order of the visit: by column first, then by row. */
  predicate VisitedBefore(p: (int, int), q: (int, int))
  {
    p.0 < q.0 || (p.0 == q.0 && p.1 < q.1)
  }

  lemma {:induction false} TileOrderLength(x0: int, x1: int, y0: int, y1: int)
    requires x0 <= x1 + 1 && y0 <= y1 + 1
    ensures |TileOrder(x0, x1, y0, y1)| == (x1 - x0 + 1) * (y1 - y0 + 1)
    decreases x1 - x0 + 1
  {
    if x0 <= x1 {
      TileOrderLength(x0, x1 - 1, y0, y1);
      assert (x1 - x0 + 1) * (y1 - y0 + 1) == (x1 - 1 - x0 + 1) * (y1 - y0 + 1) + (y1 - y0 + 1);
    }
  }

  /** Every tile of the rectangle is visited, and nothing else. */
  lemma {:induction false} TileOrderMembers(x0: int, x1: int, y0: int, y1: int)
    ensures forall p :: p in TileOrder(x0, x1, y0, y1) <==> x0 <= p.0 <= x1 && y0 <= p.1 <= y1
    decreases if x1 < x0 then 0 else x1 - x0 + 1
  {
    if x0 <= x1 {
      TileOrderMembers(x0, x1 - 1, y0, y1);
      var s: seq<(int, int)>, c: seq<(int, int)> := TileOrder(x0, x1 - 1, y0, y1), Column(x1, y0, y1);
      forall p: (int, int) | x0 <= p.0 <= x1 && y0 <= p.1 <= y1
        ensures p in s + c
      {
        if p.0 == x1 {
          assert c[p.1 - y0] == p;
        }
      }
    }
  }

  /** Every visited tile lies in one of the columns `x0 .. x1`. */
  lemma {:induction false} TileOrderColumns(x0: int, x1: int, y0: int, y1: int)
    ensures forall k :: 0 <= k < |TileOrder(x0, x1, y0, y1)| ==> x0 <= TileOrder(x0, x1, y0, y1)[k].0 <= x1
    decreases if x1 < x0 then 0 else x1 - x0 + 1
  {
    if x0 <= x1 {
      TileOrderColumns(x0, x1 - 1, y0, y1);
      var s: seq<(int, int)>, c: seq<(int, int)> := TileOrder(x0, x1 - 1, y0, y1), Column(x1, y0, y1);
      forall k | 0 <= k < |s + c|
        ensures x0 <= (s + c)[k].0 <= x1
      {
        if k < |s| {
          assert (s + c)[k] == s[k];
        } else {
          assert (s + c)[k] == c[k - |s|];
        }
      }
    }
  }

  /** The visit is strictly ordered, column by column and then row by row,
      so no tile is visited twice. */
  lemma {:induction false} TileOrderSorted(x0: int, x1: int, y0: int, y1: int)
    ensures forall a, b :: 0 <= a < b < |TileOrder(x0, x1, y0, y1)| ==>
              VisitedBefore(TileOrder(x0, x1, y0, y1)[a], TileOrder(x0, x1, y0, y1)[b])
    decreases if x1 < x0 then 0 else x1 - x0 + 1
  {
    if x0 <= x1 {
      TileOrderSorted(x0, x1 - 1, y0, y1);
      TileOrderColumns(x0, x1 - 1, y0, y1);
      var s: seq<(int, int)>, c: seq<(int, int)> := TileOrder(x0, x1 - 1, y0, y1), Column(x1, y0, y1);
      forall a, b | 0 <= a < b < |s + c|
        ensures VisitedBefore((s + c)[a], (s + c)[b])
      {
        if b < |s| {
          assert (s + c)[a] == s[a] && (s + c)[b] == s[b];
        } else if a < |s| {
          assert (s + c)[a] == s[a] && (s + c)[b] == c[b - |s|];
        } else {
          assert (s + c)[a] == c[a - |s|] && (s + c)[b] == c[b - |s|];
        }
      }
    }
  }

  /** Hence no tile is visited twice. */
  lemma TileOrderDistinct(x0: int, x1: int, y0: int, y1: int)
    ensures forall a, b :: 0 <= a < |TileOrder(x0, x1, y0, y1)| && 0 <= b < |TileOrder(x0, x1, y0, y1)| && a != b ==>
              TileOrder(x0, x1, y0, y1)[a] != TileOrder(x0, x1, y0, y1)[b]
  {
    TileOrderSorted(x0, x1, y0, y1);
  }
}
