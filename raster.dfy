/** Images, tiles and the canvas the tiles are merged into.

    An image is a sequence of columns: `img[x][y]` is the pixel `x` pixels
    from the left and `y` pixels from the top, as in the `(x, y)`
    coordinates of the imaging library the program uses. The canvas that is
    written in place is an `array2`, indexed the same way. */
module Raster {
  import opened Projection

  datatype Option<T> = None | Some(value: T)

  /** An RGB pixel. */
  datatype Pixel = Rgb(r: int, g: int, b: int)

  /** The colour a fresh RGB canvas is filled with. */
  const Black: Pixel := Rgb(0, 0, 0)

  type Image = seq<seq<Pixel>>

  /** `img` is `w` pixels wide and `h` pixels high. */
  predicate IsRaster(img: Image, w: int, h: int)
  {
    |img| == w && forall x :: 0 <= x < w ==> |img[x]| == h
  }

  /** A decoded map tile: 256 x 256 pixels. */
  predicate IsTile(t: Image)
  {
    IsRaster(t, TileSize, TileSize)
  }

  /** The contents of a canvas, read out as an image. */
  function Snapshot(canvas: array2<Pixel>): (img: Image)
    reads canvas
    ensures IsRaster(img, canvas.Length0, canvas.Length1)
    ensures forall x, y :: 0 <= x < canvas.Length0 && 0 <= y < canvas.Length1 ==> img[x][y] == canvas[x, y]
  {
    seq(canvas.Length0, x requires 0 <= x < canvas.Length0 reads canvas =>
      seq(canvas.Length1, y requires 0 <= y < canvas.Length1 reads canvas => canvas[x, y]))
  }

  /** The part of `img` in the window `[left, right) x [top, bottom)`,
      for a window inside the image. */
  function Crop(img: Image, left: int, top: int, right: int, bottom: int): (c: Image)
    requires 0 <= left <= right <= |img| && 0 <= top <= bottom
    requires forall x :: left <= x < right ==> bottom <= |img[x]|
    ensures IsRaster(c, right - left, bottom - top)
    ensures forall x, y :: 0 <= x < right - left && 0 <= y < bottom - top ==> c[x][y] == img[left + x][top + y]
  {
    seq(right - left, x requires 0 <= x < right - left => img[left + x][top..bottom])
  }

  /** Cropping to the whole image changes nothing. */
  lemma CropWhole(img: Image, w: int, h: int)
    requires w >= 0 && h >= 0 && IsRaster(img, w, h)
    ensures Crop(img, 0, 0, w, h) == img
  {
    var c := Crop(img, 0, 0, w, h);
    forall x | 0 <= x < w
      ensures c[x] == img[x]
    {
      assert |c[x]| == |img[x]|;
    }
  }

  /** Cropping a cropped image is one crop of the original, with the two
      windows' offsets added up. */
  lemma CropOfCrop(img: Image, left: int, top: int, right: int, bottom: int,
                   l2: int, t2: int, r2: int, b2: int)
    requires 0 <= left <= right <= |img| && 0 <= top <= bottom
    requires forall x :: left <= x < right ==> bottom <= |img[x]|
    requires 0 <= l2 <= r2 <= right - left && 0 <= t2 <= b2 <= bottom - top
    ensures Crop(Crop(img, left, top, right, bottom), l2, t2, r2, b2)
         == Crop(img, left + l2, top + t2, left + r2, top + b2)
  {
    var inner := Crop(img, left, top, right, bottom);
    var c1 := Crop(inner, l2, t2, r2, b2);
    var c2 := Crop(img, left + l2, top + t2, left + r2, top + b2);
    forall x | 0 <= x < r2 - l2
      ensures c1[x] == c2[x]
    {
      assert |c1[x]| == |c2[x]|;
      forall y | 0 <= y < b2 - t2
        ensures c1[x][y] == c2[x][y]
      {
        assert c1[x][y] == inner[l2 + x][t2 + y];
      }
    }
  }

  /** `paste` of a tile with its top-left corner at `(ox, oy)`: every canvas
      pixel under the tile is overwritten with the tile's pixel, the parts
      of the tile that fall outside the canvas are dropped, and every other
      canvas pixel is left as it was. */
  method Paste(canvas: array2<Pixel>, tile: Image, ox: int, oy: int)
    requires IsTile(tile)
    modifies canvas
    ensures forall x, y :: 0 <= x < canvas.Length0 && 0 <= y < canvas.Length1 ==>
              canvas[x, y] == if ox <= x < ox + TileSize && oy <= y < oy + TileSize
                              then tile[x - ox][y - oy] else old(canvas[x, y])
  {
    var dx := 0;
    while dx < TileSize
      invariant 0 <= dx <= TileSize
      invariant forall x, y :: 0 <= x < canvas.Length0 && 0 <= y < canvas.Length1 ==>
                  canvas[x, y] == if ox <= x < ox + dx && oy <= y < oy + TileSize
                                  then tile[x - ox][y - oy] else old(canvas[x, y])
    {
      var dy := 0;
      while dy < TileSize
        invariant 0 <= dy <= TileSize
        invariant forall x, y :: 0 <= x < canvas.Length0 && 0 <= y < canvas.Length1 ==>
                    canvas[x, y] == if (ox <= x < ox + dx && oy <= y < oy + TileSize) || (x == ox + dx && oy <= y < oy + dy)
                                    then tile[x - ox][y - oy] else old(canvas[x, y])
      {
        if 0 <= ox + dx < canvas.Length0 && 0 <= oy + dy < canvas.Length1 {
          canvas[ox + dx, oy + dy] := tile[dx][dy];
        }
        dy := dy + 1;
      }
      dx := dx + 1;
    }
  }

  /** The tile store holds a 256 x 256 tile for every index of the
      rectangle `[x0, x1] x [y0, y1]`. */
  predicate TilesReady(tiles: map<(int, int), Image>, x0: int, x1: int, y0: int, y1: int)
  {
    forall i, j :: x0 <= i <= x1 && y0 <= j <= y1 ==> (i, j) in tiles && IsTile(tiles[(i, j)])
  }

  /** The tile of the rectangle (with top-left tile `(x0, y0)`) that covers
      canvas pixel `(x, y)`. */
  function Owner(x0: int, y0: int, x: int, y: int): (int, int)
  {
    (x0 + x / TileSize, y0 + y / TileSize)
  }

  /** The pixel the merged canvas should show at `(x, y)`: the pixel at
      the same offset inside the tile that covers it. */
  function MergedPixel(tiles: map<(int, int), Image>, x0: int, y0: int, x: int, y: int): Pixel
  {
    var k := Owner(x0, y0, x, y);
    if k in tiles && 0 <= x % TileSize < |tiles[k]| && 0 <= y % TileSize < |tiles[k][x % TileSize]|
    then tiles[k][x % TileSize][y % TileSize]
    else Black
  }

  /** Canvas pixel `(x, y)` lies in the 256 x 256 block that the tile
      `(i, j)` is pasted into. */
  predicate InBlock(x0: int, y0: int, i: int, j: int, x: int, y: int)
  {
    (i - x0) * TileSize <= x < (i - x0) * TileSize + TileSize &&
    (j - y0) * TileSize <= y < (j - y0) * TileSize + TileSize
  }

  lemma BlockIndex(q: int, x: int)
    requires q * TileSize <= x < q * TileSize + TileSize
    ensures x / TileSize == q && x % TileSize == x - q * TileSize
  {
  }

  /** The blocks of the tiles of a rectangle tile the canvas: each canvas
      pixel lies in the block of exactly one tile of the rectangle, its
      `Owner`. */
  lemma BlocksPartitionCanvas(x0: int, x1: int, y0: int, y1: int, x: int, y: int)
    requires x0 <= x1 && y0 <= y1
    requires 0 <= x < (x1 - x0 + 1) * TileSize && 0 <= y < (y1 - y0 + 1) * TileSize
    ensures x0 <= Owner(x0, y0, x, y).0 <= x1 && y0 <= Owner(x0, y0, x, y).1 <= y1
    ensures forall i, j :: InBlock(x0, y0, i, j, x, y) <==> (i, j) == Owner(x0, y0, x, y)
  {
    forall i, j | InBlock(x0, y0, i, j, x, y)
      ensures (i, j) == Owner(x0, y0, x, y)
    {
      BlockIndex(i - x0, x);
      BlockIndex(j - y0, y);
    }
    var qx, qy := x / TileSize, y / TileSize;
    assert InBlock(x0, y0, x0 + qx, y0 + qy, x, y);
  }

  /** The merged image of the rectangle `[x0, x1] x [y0, y1]`. */
  function Composite(tiles: map<(int, int), Image>, x0: int, x1: int, y0: int, y1: int): (img: Image)
    requires x0 <= x1 && y0 <= y1
    ensures IsRaster(img, (x1 - x0 + 1) * TileSize, (y1 - y0 + 1) * TileSize)
  {
    seq((x1 - x0 + 1) * TileSize, x =>
      seq((y1 - y0 + 1) * TileSize, y => MergedPixel(tiles, x0, y0, x, y)))
  }

  /** Tile `(i, j)` lands at `((i - x0) * 256, (j - y0) * 256)` of the
      merged image, pixel for pixel. */
  lemma {:induction false} TileLandsInBlock(tiles: map<(int, int), Image>, x0: int, x1: int, y0: int, y1: int,
                                            i: int, j: int, dx: int, dy: int)
    requires x0 <= i <= x1 && y0 <= j <= y1 && TilesReady(tiles, x0, x1, y0, y1)
    requires 0 <= dx < TileSize && 0 <= dy < TileSize
    ensures Composite(tiles, x0, x1, y0, y1)[(i - x0) * TileSize + dx][(j - y0) * TileSize + dy]
         == tiles[(i, j)][dx][dy]
  {
    var x, y := (i - x0) * TileSize + dx, (j - y0) * TileSize + dy;
    BlockIndex(i - x0, x);
    BlockIndex(j - y0, y);
    assert Owner(x0, y0, x, y) == (i, j);
    assert IsTile(tiles[(i, j)]);
  }
}
