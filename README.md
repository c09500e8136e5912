# gsiTile in Dafny

A model of `GSITile`, the class that fetches map tiles of the Geospatial
Information Authority of Japan (GSI) and stitches them into one image
covering a latitude/longitude box at a given zoom level.

At zoom level `level` the pyramid is `2^(level+8)` pixels wide and is cut
into 256 x 256 tiles. The model covers the exact-arithmetic part of the
class:

- `Projection` (projection.dfy): conversion of degrees/minutes/seconds
  to decimal degrees (`convertDeg`), the longitude pixel
  `2^(level+7) * (deg/180 + 1)`, and the step that splits a pixel
  coordinate into a tile index and a margin,
  `(int(p / 256), int(p % 256 + 0.5))`. Python's truncating `int()` and its
  float `%` are written out on `real`, so the step is defined for every
  coordinate; its guarantees are stated for non-negative ones.
- `TileRange` (tile_range.dfy): the per-axis ordering of the two corners in
  the constructor, with each margin carried along with its tile index;
  the canvas extent; the crop interval; and the column-by-column order in
  which the tiles are visited.
- `Raster` (raster.dfy): images as columns of pixels, the composite of a
  rectangle of tiles, cropping, and `paste` as an in-place copy into an
  `array2` canvas.
- `GsiTiles` (gsi_tile.dfy): the class itself. The constructor fills the
  eight bound and margin fields step by step with the same conditional
  swaps. `GetTiles` runs the nested download loops with the download
  replaced by recording the tile index. `MergeCanvas` pastes every tile
  into a fresh canvas in place. `CropWindow`, `CropImage` and `MergeImage`
  do the rest of `mergeImage`.

Facts proved about the model, beyond the per-member contracts:

- For a non-negative coordinate, the tile index is `floor(p / 256)` and
  the margin is `round(p) - 256 * tile`, with rounding half up. The margin
  lies in [0, 256]. It equals 256 exactly when `p mod 256 >= 255.5`.
- A negative coordinate that is not a multiple of 256 gives a tile and
  margin that do not belong together, because the tile index is one too
  high: pixel -10 gives tile 0 with margin 246. At a negative multiple of
  256 the pair is right: pixel -256 gives tile -1 with margin 0.
- The crop window runs from the rounded west (north) corner to the rounded
  east (south) corner, measured from the canvas origin. That holds when
  the corners are in different tiles or given in increasing order. When
  both corners share a tile and come in decreasing order, nothing is
  swapped. The window then comes out reversed when the corners round to
  different pixels (`SameTileReversedWindow`) and empty when they round to
  the same pixel (`SameTileEmptyWindow`). Imaging-library releases differ
  on a reversed crop box; the model takes the reading that the crop is
  refused, and `CropImage` returns `None` for it.
- Every tile of the rectangle is visited exactly once, column by column.
  The counter ends at `(maxX - minX + 1) * (maxY - minY + 1)`.
- The tiles' 256 x 256 blocks partition the canvas, and tile `(i, j)`
  lands at `((i - minX) * 256, (j - minY) * 256)`.

Three consequences of the code worth stating on their own:

- The margin can be 256 as well as any value below 256.
- The normalised rectangle keeps four margins, one per bound.
- Giving the corners in the other order yields the same tile bounds. The
  margins can change with the order only when both corners share a tile
  on that axis, and then they change exactly when the two margins differ.

## Model

| member | source | states |
|---|---|---|
| Projection.Trunc | gsiTile.py:113-115 | `int()` on a float truncates: the floor for non-negative values, and a value within one above the argument for negative ones |
| Projection.FloatMod256 | gsiTile.py:114 | float `% 256.0` lies in [0, 256) and differs from its argument by a whole multiple of 256 |
| Projection.TileStep | gsiTile.py:107-115 | margin in [0, 256], equal to 256 iff `p mod 256 >= 255.5`; for `p >= 0` the tile `t` satisfies `256t <= p < 256t + 256` and the margin is `round(p) - 256t` |
| Projection.NegativeCoordinateMispairs | gsiTile.py:113-115 | for a negative pixel the reported tile starts at or right of the pixel, and exactly at it iff the pixel is a multiple of 256; otherwise the tile index is `floor(p / 256) + 1`, one too high, so the pixel lies outside the reported tile |
| Projection.NegativeCoordinateExamples | gsiTile.py:113-115 | pixel -10 gets tile 0 with margin 246, a pair that does not describe it; pixel -256 gets tile -1 with margin 0, which does |
| Projection.Degrees | gsiTile.py:40-55 | a number is taken as decimal degrees unchanged; a list with non-negative minutes and seconds converts to at least its whole degrees, and to less than one degree more when minutes plus seconds stay under 60 minutes |
| Projection.ConvertDeg | gsiTile.py:97-99 | `d + m/60 + s/3600` is at least `d` when minutes and seconds are non-negative |
| Projection.ToDms | gsiTile.py:97-99 | every decimal angle splits into whole degrees, whole minutes below 60 and seconds below 60 that convert back to the same angle |
| Projection.LongitudePixel | gsiTile.py:112 | the pixel x is the longitude's share of the full circle east of -180, times the pyramid width `2^(level+8)` |
| Projection.LongitudeTileNum | gsiTile.py:111-115 | east of -180 the column is the 256-pixel column holding the pixel x; within [-180, 180] it equals `2^level`, one past the last column, exactly at longitude 180 |
| Projection.LongitudePixelRange | gsiTile.py:112 | a longitude in [-180, 180] maps to a pixel x in [0, 2^(level+8)] |
| Projection.LongitudeTileRange | gsiTile.py:111-115 | a longitude in [-180, 180] gets a tile column in [0, 2^level] |
| Projection.LongitudeTileMonotone | gsiTile.py:111-115 | the pixel x and the tile column never decrease as the longitude grows |
| TileRange.OrderAxis | gsiTile.py:66-74 | bounds are the smaller and larger of the two tile indices; each margin stays with its own corner's index; on a tie there is no swap and the margins keep the corners' order |
| TileRange.OrderAxisSymmetric | gsiTile.py:66-83 | swapping the corners leaves the tile bounds unchanged, and the whole axis unchanged when the tile indices differ; for corners in one tile the axis is unchanged iff their margins are equal |
| TileRange.SameTileReversedWindow | gsiTile.py:66-74 | two corners in one tile given in decreasing order (pixels 200 then 100) leave a reversed crop interval (200, 100) |
| TileRange.CrossTileEmptyWindow | gsiTile.py:66-74 | corners at pixels 255.7 and 256.2 lie in different tiles (0 and 1), yet the crop interval is empty (256, 256) |
| TileRange.SameTileEmptyWindow | gsiTile.py:66-74 | two corners in one tile given in decreasing order that round to the same pixel (100.4 then 100.2) leave an empty crop interval (100, 100) |
| TileRange.Extent | gsiTile.py:91-95 | the canvas side is a positive multiple of 256: 256 times the number of tiles on the axis |
| TileRange.CropSpan | gsiTile.py:222-225 | for a normalised axis the crop interval lies inside the canvas, starting within the first tile; it is not reversed (though it can be empty) when min and max tiles differ |
| TileRange.CropSpanFromCorners | gsiTile.py:222-225 | for corners at pixels `p1, p2 >= 0` the crop interval is from the rounded lower corner to the rounded upper corner, relative to `256 * min`, unless both share a tile and come in decreasing order, when it runs from the rounded first corner to the rounded second, reversed or empty |
| TileRange.TileOrderLength | gsiTile.py:154-158 | the visit order has `(x1 - x0 + 1) * (y1 - y0 + 1)` entries, the value of `numTile` |
| TileRange.TileOrderMembers | gsiTile.py:155-190 | a tile is visited iff it lies in the rectangle |
| TileRange.TileOrderSorted | gsiTile.py:155-190 | the visit is ordered by column, then by row within a column |
| TileRange.TileOrderDistinct | gsiTile.py:155-190 | no tile is visited twice |
| Raster.Crop | gsiTile.py:228 | a crop inside the image has the window's size, and its pixel `(x, y)` is the image's pixel at `(left + x, top + y)` |
| Raster.CropWhole | gsiTile.py:228 | cropping to the whole image returns the image unchanged |
| Raster.CropOfCrop | gsiTile.py:228 | cropping a crop is one crop of the original with the offsets added |
| Raster.Paste | gsiTile.py:208 | pasting a tile at `(ox, oy)` overwrites exactly the canvas pixels under the tile with the tile's pixels, drops what falls outside the canvas, and changes nothing else |
| Raster.Composite | gsiTile.py:196-197 | the composite of a rectangle of tiles is `(dx + 1) * 256` by `(dy + 1) * 256` pixels |
| Raster.BlocksPartitionCanvas | gsiTile.py:199-214 | every canvas pixel lies in the block of exactly one tile of the rectangle, and that tile is in the rectangle |
| Raster.TileLandsInBlock | gsiTile.py:204-210 | tile `(i, j)`'s pixel `(dx, dy)` appears at canvas pixel `((i - minX) * 256 + dx, (j - minY) * 256 + dy)` |
| GsiTiles.GsiTile.constructor | gsiTile.py:26-83 | the fields hold the ordered tile bounds and their margins of the two corners on each axis, and the object invariant (ordered bounds, margins in [0, 256]) holds |
| GsiTiles.GsiTile.GetPixelSize | gsiTile.py:91-95 | each side is a positive multiple of 256 equal to 256 times the number of tiles on that axis |
| GsiTiles.GsiTile.NumTile | gsiTile.py:154 | the tile count `numTile` is at least one and is the length of the visit order over the rectangle |
| GsiTiles.GsiTile.GetTiles | gsiTile.py:154-190 | the loops visit each tile of the rectangle exactly once, column by column, and nothing else; the counter ends at `numTile` |
| GsiTiles.GsiTile.MergeCanvas | gsiTile.py:196-214 | the canvas has `getPixelSize()` pixels and holds, at every pixel, the pixel of the tile whose block covers it |
| GsiTiles.GsiTile.CropWindow | gsiTile.py:222-225 | the window lies inside the merged canvas and is not reversed (though it can be empty) on every axis whose min and max tiles differ |
| GsiTiles.GsiTile.CropImage | gsiTile.py:219-229 | the crop succeeds iff the window is not reversed (an empty window gives an empty image); the result is `(dx * 256 + maxR - minR)` pixels per axis, read from the canvas from `(minXr, minYr)` on |
| GsiTiles.GsiTile.MergeImage | gsiTile.py:193-217 | without cropping it returns the composite; with cropping its pixel `(x, y)` is the composite's pixel at `(tileMinXr + x, tileMinYr + y)` |

## Left out

- Download and staging: the URL format, the style-to-extension table,
  `urllib` with its ten attempts, the tile files and `sys.exit`. These are
  network and file I/O. `GetTiles` records each visited tile index in
  their place.
- GetTiles: does not model aborting the whole run when a download fails
  after ten attempts or a tile file cannot be written.
- Creation of the working directory and the progress messages on the
  error stream. These are process I/O.
- The latitude projection (`atanh`, `sin`, `radians`, `pi`). These are
  transcendental floating-point functions. The constructor takes the
  projected pixel ordinate as the function parameter `latitudePixel`.
  The monotonicity of that projection is not modelled.
- `calcPixelCoord`, `calcLengthPerPixel` and the fields `origin`, `sz` and
  `leng` they fill. These are spherical trigonometry on floats (`acos`);
  the other members do not read them.
- constructor: does not model the failure of `calcLengthPerPixel`, which
  `__init__` always calls. It divides by the rounded pixel spans `sz`, so
  corners that round to the same pixel column or row (for example
  `lon0 == lon1`) raise a division by zero, and equal longitudes can
  already make `acos` raise on an argument rounded above 1. The model
  builds a valid object for these inputs anyway.
- Decoding tiles and encoding the result (`Image.open`, `save`): image
  codecs. The staged tiles are passed to `MergeCanvas` and `MergeImage` as
  a map from tile index to decoded image.
- Paste: takes only 256 x 256 tiles. The imaging library would paste a
  tile of any size at its own size.
- CropImage: does not model windows that reach outside the image (the
  imaging library pads them). The window computed here always lies inside
  the canvas.
- IEEE floating-point rounding. Arithmetic is exact on `real`.
- The `__main__` demonstration driver and `saveImage`.
