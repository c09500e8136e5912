/** The `GSITile` object: the tile rectangle that covers two corners at one
    zoom level, the download loop over that rectangle, and the merge and
    crop of the downloaded tiles into one image. */
module GsiTiles {
  import opened Projection
  import opened TileRange
  import opened Raster

  class GsiTile {
    var tileLevel: nat
    var tileType: string
    // The tile rectangle. Each bound comes with the margin, in pixels from
    // the tile's left (top) edge, of the corner it was taken from.
    var tileMinX: int
    var tileMinXr: int
    var tileMaxX: int
    var tileMaxXr: int
    var tileMinY: int
    var tileMinYr: int
    var tileMaxY: int
    var tileMaxYr: int

    function XRange(): AxisRange
      reads this
    {
      AxisRange(tileMinX, tileMinXr, tileMaxX, tileMaxXr)
    }

    function YRange(): AxisRange
      reads this
    {
      AxisRange(tileMinY, tileMinYr, tileMaxY, tileMaxYr)
    }

    /** Both axes are ordered and every margin lies in [0, 256]. */
    ghost predicate Valid()
      reads this
    {
      Normalised(XRange()) && Normalised(YRange())
    }

    /** Converts the corners to decimal degrees, computes each corner's tile
        and margin on each axis, and orders the corners per axis.
        `latitudePixel` is the Web-Mercator pixel ordinate of a latitude at
        this zoom level (it grows southward). */
    constructor (lat0: Angle, lat1: Angle, lon0: Angle, lon1: Angle,
                 latitudePixel: real -> real, level: nat := 16, tile: string := "seamlessphoto")
      ensures Valid()
      ensures tileLevel == level && tileType == tile
      ensures XRange() == OrderAxis(LongitudeTileNum(level, Degrees(lon0)), LongitudeTileNum(level, Degrees(lon1)))
      ensures YRange() == OrderAxis(TileStep(latitudePixel(Degrees(lat0))), TileStep(latitudePixel(Degrees(lat1))))
    {
      tileLevel := level;
      tileType := tile;
      var dx1, dx2 := Degrees(lon0), Degrees(lon1);
      var dy1, dy2 := Degrees(lat0), Degrees(lat1);
      var x1, x2 := LongitudeTileNum(level, dx1), LongitudeTileNum(level, dx2);
      var y1, y2 := TileStep(latitudePixel(dy1)), TileStep(latitudePixel(dy2));
      var tx1, rx1, tx2, rx2 := x1.tile, x1.rem, x2.tile, x2.rem;
      var ty1, ry1, ty2, ry2 := y1.tile, y1.rem, y2.tile, y2.rem;
      tileMinX := tx1;
      tileMinXr := rx1;
      tileMaxX := tx2;
      tileMaxXr := rx2;
      if tx1 > tx2 {
        tileMinX := tx2;
        tileMinXr := rx2;
        tileMaxX := tx1;
        tileMaxXr := rx1;
      }
      tileMinY := ty1;
      tileMinYr := ry1;
      tileMaxY := ty2;
      tileMaxYr := ry2;
      if ty1 > ty2 {
        tileMinY := ty2;
        tileMinYr := ry2;
        tileMaxY := ty1;
        tileMaxYr := ry1;
      }
    }

    /** `getPixelSize`: the merged canvas covers the tile rectangle, a
        whole number of tiles on each axis. */
    function GetPixelSize(): (sz: (int, int))
      reads this
      requires Valid()
      ensures sz.0 >= TileSize && sz.0 % TileSize == 0 && sz.0 / TileSize == tileMaxX - tileMinX + 1
      ensures sz.1 >= TileSize && sz.1 % TileSize == 0 && sz.1 / TileSize == tileMaxY - tileMinY + 1
    {
      (Extent(XRange()), Extent(YRange()))
    }

    /** `numTile`: the number of tiles in the rectangle, at least one, and
        the length of the visit order over it. */
    function NumTile(): (n: int)
      reads this
      requires Valid()
      ensures n >= 1
      ensures n == |TileOrder(tileMinX, tileMaxX, tileMinY, tileMaxY)|
    {
      TileOrderLength(tileMinX, tileMaxX, tileMinY, tileMaxY);
      var w, h := tileMaxX - tileMinX + 1, tileMaxY - tileMinY + 1;
      assert w * h >= 1 * h;
      w * h
    }

    /** The loop of `getTiles`. The download and staging of tile `(i, j)`
        is the per-tile action; here it records `(i, j)` in `visited`.
        Every tile of the rectangle is visited exactly once, column by
        column and row by row within a column, and the progress counter
        ends at the number of tiles. */
    method GetTiles() returns (visited: seq<(int, int)>, nDl: int)
      requires Valid()
      ensures visited == TileOrder(tileMinX, tileMaxX, tileMinY, tileMaxY)
      ensures nDl == |visited| == NumTile()
      ensures forall p :: p in visited <==> tileMinX <= p.0 <= tileMaxX && tileMinY <= p.1 <= tileMaxY
      ensures forall a, b :: 0 <= a < b < |visited| ==> VisitedBefore(visited[a], visited[b])
    {
      var i := tileMinX;
      nDl := 0;
      visited := [];
      while i <= tileMaxX
        invariant tileMinX <= i <= tileMaxX + 1
        invariant visited == TileOrder(tileMinX, i - 1, tileMinY, tileMaxY)
        invariant nDl == |visited|
      {
        var j := tileMinY;
        while j <= tileMaxY
          invariant tileMinY <= j <= tileMaxY + 1
          invariant visited == TileOrder(tileMinX, i - 1, tileMinY, tileMaxY) + Column(i, tileMinY, j - 1)
          invariant nDl == |visited|
        {
          assert Column(i, tileMinY, j - 1) + [(i, j)] == Column(i, tileMinY, j);
          visited := visited + [(i, j)];
          j := j + 1;
          nDl := nDl + 1;
        }
        i := i + 1;
      }
      TileOrderLength(tileMinX, tileMaxX, tileMinY, tileMaxY);
      TileOrderMembers(tileMinX, tileMaxX, tileMinY, tileMaxY);
      TileOrderSorted(tileMinX, tileMaxX, tileMinY, tileMaxY);
    }

    /** The merge loop of `mergeImage`: a black canvas of `GetPixelSize()`
        pixels, and tile `(i, j)` pasted at `(ii * 256, jj * 256)` with
        `ii = i - tileMinX` and `jj = j - tileMinY`. The result is the
        composite of all tiles of the rectangle. */
    method MergeCanvas(tiles: map<(int, int), Image>) returns (canvas: array2<Pixel>)
      requires Valid() && TilesReady(tiles, tileMinX, tileMaxX, tileMinY, tileMaxY)
      ensures fresh(canvas)
      ensures (canvas.Length0, canvas.Length1) == GetPixelSize()
      ensures Snapshot(canvas) == Composite(tiles, tileMinX, tileMaxX, tileMinY, tileMaxY)
    {
      var size := GetPixelSize();
      canvas := new Pixel[size.0, size.1]((x, y) => Black);
      var i := tileMinX;
      var ii := 0;
      while i <= tileMaxX
        invariant tileMinX <= i <= tileMaxX + 1 && ii == i - tileMinX
        invariant canvas.Length0 == size.0 && canvas.Length1 == size.1
        invariant forall x, y :: 0 <= x < size.0 && 0 <= y < size.1 && x < ii * TileSize ==>
                    canvas[x, y] == MergedPixel(tiles, tileMinX, tileMinY, x, y)
      {
        var j := tileMinY;
        var jj := 0;
        while j <= tileMaxY
          invariant tileMinY <= j <= tileMaxY + 1 && jj == j - tileMinY
          invariant forall x, y ::
                      (0 <= x < size.0 && 0 <= y < size.1 &&
                       (x < ii * TileSize || (x < ii * TileSize + TileSize && y < jj * TileSize))) ==>
                      canvas[x, y] == MergedPixel(tiles, tileMinX, tileMinY, x, y)
        {
          Paste(canvas, tiles[(i, j)], ii * TileSize, jj * TileSize);
          forall x, y | 0 <= x < size.0 && 0 <= y < size.1 && InBlock(tileMinX, tileMinY, i, j, x, y)
            ensures canvas[x, y] == MergedPixel(tiles, tileMinX, tileMinY, x, y)
          {
            BlockIndex(ii, x);
            BlockIndex(jj, y);
            assert Owner(tileMinX, tileMinY, x, y) == (i, j);
          }
          j := j + 1;
          jj := jj + 1;
        }
        i := i + 1;
        ii := ii + 1;
      }
      var merged := Composite(tiles, tileMinX, tileMaxX, tileMinY, tileMaxY);
      var snap := Snapshot(canvas);
      forall x | 0 <= x < size.0
        ensures snap[x] == merged[x]
      {
        assert |snap[x]| == |merged[x]|;
      }
    }

    /** The crop window `(left, top, right, bottom)` of `cropImage`. It lies
        inside the merged canvas, and it is not reversed (though it can be
        empty) on every axis whose corners fall in different tiles. */
    function CropWindow(): (w: (int, int, int, int))
      reads this
      requires Valid()
      ensures 0 <= w.0 <= TileSize && 0 <= w.2 <= GetPixelSize().0
      ensures 0 <= w.1 <= TileSize && 0 <= w.3 <= GetPixelSize().1
      ensures tileMinX < tileMaxX ==> w.0 <= w.2
      ensures tileMinY < tileMaxY ==> w.1 <= w.3
    {
      var xs, ys := CropSpan(XRange()), CropSpan(YRange());
      (xs.0, ys.0, xs.1, ys.1)
    }

    /** `cropImage` on a merged image. A window whose right edge is left of
        its left edge (or bottom above top) is taken to be refused by the
        imaging library, and that failure is `None`; an empty window gives
        an empty image. */
    function CropImage(orgimg: Image): (r: Option<Image>)
      reads this
      requires Valid() && IsRaster(orgimg, GetPixelSize().0, GetPixelSize().1)
      ensures r.Some? <==> tileMinXr <= (tileMaxX - tileMinX) * TileSize + tileMaxXr &&
                           tileMinYr <= (tileMaxY - tileMinY) * TileSize + tileMaxYr
      ensures r.Some? ==> IsRaster(r.value, (tileMaxX - tileMinX) * TileSize + tileMaxXr - tileMinXr,
                                            (tileMaxY - tileMinY) * TileSize + tileMaxYr - tileMinYr)
      ensures r.Some? ==> forall x, y :: 0 <= x < |r.value| && 0 <= y < |r.value[x]| ==>
                            r.value[x][y] == orgimg[tileMinXr + x][tileMinYr + y]
    {
      var w := CropWindow();
      if w.0 <= w.2 && w.1 <= w.3 then Some(Crop(orgimg, w.0, w.1, w.2, w.3)) else None
    }

    /** `mergeImage`: the composite of the rectangle's tiles, cropped to the
        corners when `crop` is set. Pixel `(x, y)` of the cropped image is
        the composite's pixel at `(tileMinXr + x, tileMinYr + y)`. */
    method MergeImage(tiles: map<(int, int), Image>, crop: bool := true) returns (img: Option<Image>)
      requires Valid() && TilesReady(tiles, tileMinX, tileMaxX, tileMinY, tileMaxY)
      ensures !crop ==> img == Some(Composite(tiles, tileMinX, tileMaxX, tileMinY, tileMaxY))
      ensures crop ==> img == CropImage(Composite(tiles, tileMinX, tileMaxX, tileMinY, tileMaxY))
      ensures crop && img.Some? ==> forall x, y :: 0 <= x < |img.value| && 0 <= y < |img.value[x]| ==>
                img.value[x][y] == MergedPixel(tiles, tileMinX, tileMinY, tileMinXr + x, tileMinYr + y)
    {
      var canvas := MergeCanvas(tiles);
      var mgimg := Snapshot(canvas);
      if crop {
        img := CropImage(mgimg);
        if img.Some? {
          var cropped := img.value;
          forall x, y | 0 <= x < |cropped| && 0 <= y < |cropped[x]|
            ensures cropped[x][y] == MergedPixel(tiles, tileMinX, tileMinY, tileMinXr + x, tileMinYr + y)
          {
            assert cropped[x][y] == mgimg[tileMinXr + x][tileMinYr + y];
          }
        }
      } else {
        img := Some(mgimg);
      }
    }
  }
}
